/**
 * Journey segmentation and assembly, shared by the bus/coach converter (header tag QS)
 * and the rail converter (header tag BS). A header line owns the lines after it up to
 * the next header or the end of the filtered timetable; each owned line becomes a stop
 * row linked to its successor, flagged for repeated locations and stamped with the
 * header's attributes.
 */
module Journeys {
  import opened Wrappers
  import opened Text
  import opened Records
  import opened Layouts
  import opened Decoder

  /** `line.startswith(tag)` for the family's header tag. */
  predicate IsHeader(family: Family, line: string) {
    HeaderTag(family) <= line
  }

  /** A line that starts with the header tag is decoded with the header's layout. */
  lemma HeaderTagOf(family: Family, line: string)
    ensures IsHeader(family, line) <==> Tag(line) == HeaderTag(family)
  {
    var t := HeaderTag(family);
    assert |t| == 2;
    if IsHeader(family, line) {
      assert line[..2] == t;
    }
  }

  // ---------------------------------------------------------------------------
  // Segmentation
  // ---------------------------------------------------------------------------

  /** The index of the first header at or after `j`, or |raw| when there is none. */
  function NextHeader(family: Family, raw: seq<string>, j: nat): (n: nat)
    requires j <= |raw|
    ensures j <= n <= |raw|
    ensures n < |raw| ==> IsHeader(family, raw[n])
    ensures forall m :: j <= m < n ==> !IsHeader(family, raw[m])
    decreases |raw| - j
  {
    if j == |raw| || IsHeader(family, raw[j]) then j else NextHeader(family, raw, j + 1)
  }

  /** Any index with the three properties of `NextHeader` is the one it returns. */
  lemma {:induction false} NextHeaderIs(family: Family, raw: seq<string>, j: nat, n: nat)
    requires j <= n <= |raw|
    requires n < |raw| ==> IsHeader(family, raw[n])
    requires forall m :: j <= m < n ==> !IsHeader(family, raw[m])
    ensures NextHeader(family, raw, j) == n
    decreases n - j
  {
    if j < n {
      NextHeaderIs(family, raw, j + 1, n);
    }
  }

  /** The indices owned by the header at `i`: from i+1 up to the next header or the end. */
  function StopIds(family: Family, raw: seq<string>, i: nat): (ids: seq<nat>)
    requires i < |raw|
    ensures |ids| == NextHeader(family, raw, i + 1) - (i + 1)
    ensures forall k :: 0 <= k < |ids| ==> ids[k] == i + 1 + k && !IsHeader(family, raw[ids[k]])
  {
    var n := NextHeader(family, raw, i + 1);
    seq(n - (i + 1), k requires 0 <= k < n - (i + 1) => i + 1 + k)
  }

  /** A line decoder of one family: `get_journey_data`, which the converters instantiate with `Decoder.Decode`. */
  type LineDecoder = string -> Result<Record, Error>

  /** Every line decoded, in order. */
  function DecodeAll(decode: LineDecoder, lines: seq<string>): (rs: seq<Result<Record, Error>>)
    ensures |rs| == |lines| && forall k :: 0 <= k < |lines| ==> rs[k] == decode(lines[k])
  {
    seq(|lines|, k requires 0 <= k < |lines| => decode(lines[k]))
  }

  /** The lines at the given indices. */
  function Lines(raw: seq<string>, ids: seq<nat>): (lines: seq<string>)
    requires forall k :: 0 <= k < |ids| ==> ids[k] < |raw|
    ensures |lines| == |ids|
  {
    seq(|ids|, k requires 0 <= k < |ids| => raw[ids[k]])
  }

  // ---------------------------------------------------------------------------
  // Assembly of one journey
  // ---------------------------------------------------------------------------

  /** `journey_header_data`: every header field whose name does not contain "record_identity". */
  function HeaderData(header: Record): Record {
    map k | k in header && !IsInfix("record_identity", k) :: header[k]
  }

  /** A stop row with its successor's location and arrival time. */
  function Link(family: Family, row: Record, next: Record): Record
    requires "location" in next && ArrivalKey(family) in next
  {
    row["next_stop_id" := next["location"]]["next_stop_arrival_time" := next[ArrivalKey(family)]]
  }

  /** Every key the assembly reads is present: each row's location and each successor's arrival time. */
  predicate Linkable(family: Family, decoded: seq<Record>) {
    && (forall k :: 0 <= k < |decoded| ==> "location" in decoded[k])
    && (forall k :: 1 <= k < |decoded| ==> ArrivalKey(family) in decoded[k])
  }

  /** The decoded stops, each but the last linked to its successor. */
  function Linked(family: Family, decoded: seq<Record>): (rows: seq<Record>)
    requires Linkable(family, decoded)
    ensures |rows| == |decoded|
    ensures forall k :: 0 <= k < |rows| ==> "location" in rows[k]
  {
    seq(|decoded|, k requires 0 <= k < |decoded| =>
      if k < |decoded| - 1 then Link(family, decoded[k], decoded[k + 1]) else decoded[k])
  }

  /** The `location` column of a list of rows. */
  function Locations(rows: seq<Record>): (locs: seq<Value>)
    requires forall k :: 0 <= k < |rows| ==> "location" in rows[k]
    ensures |locs| == |rows|
  {
    seq(|rows|, k requires 0 <= k < |rows| => rows[k]["location"])
  }

  /** `[x for n, x in enumerate(stops) if x in stops[:n]]`. */
  function Duplicates(locs: seq<Value>): (r: seq<Value>)
    ensures forall x :: x in r ==> x in locs
    ensures locs != [] ==> |r| < |locs|
  {
    if locs == [] then []
    else
      var init := locs[..|locs| - 1];
      var last := locs[|locs| - 1];
      Duplicates(init) + (if last in init then [last] else [])
  }

  /** `check_duplicate_stops` is truthy exactly when some location occurs twice. */
  lemma {:induction false} DuplicatesIffRepeat(locs: seq<Value>)
    ensures Duplicates(locs) != [] <==> exists i, j :: 0 <= i < j < |locs| && locs[i] == locs[j]
    decreases |locs|
  {
    if locs != [] {
      var init := locs[..|locs| - 1];
      var last := locs[|locs| - 1];
      DuplicatesIffRepeat(init);
      if last in init {
        var i :| 0 <= i < |init| && init[i] == last;
        assert locs[i] == locs[|locs| - 1];
      } else if exists i, j :: 0 <= i < j < |locs| && locs[i] == locs[j] {
        var i, j :| 0 <= i < j < |locs| && locs[i] == locs[j];
        assert locs[i] == init[i] && init[i] in init;
        assert init[i] == init[j];
      }
    }
  }

  /** The value of `has_duplicated_stops` for a journey. */
  function DuplicateFlag(rows: seq<Record>): Value
    requires forall k :: 0 <= k < |rows| ==> "location" in rows[k]
  {
    if Duplicates(Locations(rows)) != [] then Int(1) else Int(0)
  }

  /** The flag is 1 exactly when two rows share a location, and 0 otherwise. */
  lemma DuplicateFlagMeaning(rows: seq<Record>)
    requires forall k :: 0 <= k < |rows| ==> "location" in rows[k]
    ensures DuplicateFlag(rows) == Int(1) || DuplicateFlag(rows) == Int(0)
    ensures DuplicateFlag(rows) == Int(1) <==>
      exists i, j :: 0 <= i < j < |rows| && rows[i]["location"] == rows[j]["location"]
  {
    var locs := Locations(rows);
    DuplicatesIffRepeat(locs);
    assert forall i :: 0 <= i < |rows| ==> locs[i] == rows[i]["location"];
  }

  /** Each row with the duplicate flag written and then the header data merged over it. */
  function Stamp(rows: seq<Record>, flag: Value, header: Record): (stamped: seq<Record>)
    ensures |stamped| == |rows|
  {
    seq(|rows|, k requires 0 <= k < |rows| => rows[k]["has_duplicated_stops" := flag] + HeaderData(header))
  }

  /** `create_journey_timetable` on already decoded stop lines. */
  function AssembleJourney(family: Family, decoded: seq<Record>, header: Record): (r: Result<seq<Record>, Error>)
    ensures |decoded| < 2 ==> r == Failure(MissingStop(|decoded|))
    ensures r.Success? ==> |decoded| >= 2 && Linkable(family, decoded) && |r.value| == |decoded|
  {
    if |decoded| < 2 then Failure(MissingStop(|decoded|))
    else if !Linkable(family, decoded) then
      Failure(MissingField(if forall k :: 0 <= k < |decoded| ==> "location" in decoded[k]
                           then ArrivalKey(family) else "location"))
    else
      var rows := Linked(family, decoded);
      Success(Stamp(rows, DuplicateFlag(rows), header))
  }

  /**
   * `create_journey_timetable`: decode the owned lines in order, then assemble them. The source
   * links each stop to the line after it; linking to the next id is the same because the ids are
   * consecutive, as the segmentation produces them.
   */
  function Journey(family: Family, decode: LineDecoder, ids: seq<nat>, header: Record, raw: seq<string>)
    : (r: Result<seq<Record>, Error>)
    requires forall k :: 0 <= k < |ids| ==> ids[k] < |raw|
    requires forall k :: 1 <= k < |ids| ==> ids[k] == ids[k - 1] + 1
    ensures r.Success? ==> |ids| >= 2 && |r.value| == |ids|
  {
    match Collect(DecodeAll(decode, Lines(raw, ids)))
    case Failure(e) => Failure(e)
    case Success(decoded) => AssembleJourney(family, decoded, header)
  }

  /** A successful assembly has one row per decoded stop, and at least two. */
  lemma JourneyLength(family: Family, decoded: seq<Record>, header: Record)
    requires AssembleJourney(family, decoded, header).Success?
    ensures |decoded| >= 2 && Linkable(family, decoded)
    ensures |AssembleJourney(family, decoded, header).value| == |decoded|
  {
  }

  /** Header fields overwrite the row's: on a collision the header wins. */
  lemma HeaderWins(family: Family, decoded: seq<Record>, header: Record, k: nat, key: string)
    requires AssembleJourney(family, decoded, header).Success?
    requires k < |decoded| && key in header && !IsInfix("record_identity", key)
    ensures var row := AssembleJourney(family, decoded, header).value[k];
      key in row && row[key] == header[key]
  {
    assert key in HeaderData(header);
  }

  /** A stop's own field survives unless the assembly or the header writes that key. */
  lemma StopFieldKept(family: Family, decoded: seq<Record>, header: Record, k: nat, key: string)
    requires AssembleJourney(family, decoded, header).Success?
    requires k < |decoded| && key !in HeaderData(header)
    requires key != "has_duplicated_stops" && key != "next_stop_id" && key != "next_stop_arrival_time"
    ensures var row := AssembleJourney(family, decoded, header).value[k];
      && (key in row <==> key in decoded[k])
      && (key in row ==> row[key] == decoded[k][key])
  {
    var linked := Linked(family, decoded);
    var stamped := linked[k]["has_duplicated_stops" := DuplicateFlag(linked)];
    assert AssembleJourney(family, decoded, header).value[k] == stamped + HeaderData(header);
    assert key in linked[k] <==> key in decoded[k];
    assert key in linked[k] ==> linked[k][key] == decoded[k][key];
  }

  /** Rows before the last carry their successor's location and arrival time; the last carries its own. */
  lemma Linking(family: Family, decoded: seq<Record>, header: Record, k: nat)
    requires AssembleJourney(family, decoded, header).Success?
    requires k < |decoded|
    requires "next_stop_id" !in HeaderData(header) && "next_stop_arrival_time" !in HeaderData(header)
    ensures var row := AssembleJourney(family, decoded, header).value[k];
      && (k < |decoded| - 1 ==>
            && "location" in decoded[k + 1] && ArrivalKey(family) in decoded[k + 1]
            && "next_stop_id" in row && row["next_stop_id"] == decoded[k + 1]["location"]
            && "next_stop_arrival_time" in row
            && row["next_stop_arrival_time"] == decoded[k + 1][ArrivalKey(family)])
      && (k == |decoded| - 1 ==>
            && ("next_stop_id" in row <==> "next_stop_id" in decoded[k])
            && ("next_stop_arrival_time" in row <==> "next_stop_arrival_time" in decoded[k]))
  {
    var linked := Linked(family, decoded);
    assert AssembleJourney(family, decoded, header).value[k]
        == linked[k]["has_duplicated_stops" := DuplicateFlag(linked)] + HeaderData(header);
  }

  /**
   * One duplicate flag per journey: every row carries the flag of the decoded stops, which is 1
   * exactly when two of them share a location and 0 otherwise.
   */
  lemma DuplicateFlagUniform(family: Family, decoded: seq<Record>, header: Record, k: nat)
    requires AssembleJourney(family, decoded, header).Success?
    requires k < |decoded| && "has_duplicated_stops" !in HeaderData(header)
    ensures Linkable(family, decoded)
    ensures var row := AssembleJourney(family, decoded, header).value[k];
      && "has_duplicated_stops" in row && row["has_duplicated_stops"] == DuplicateFlag(decoded)
      && (row["has_duplicated_stops"] == Int(1) <==>
            exists i, j :: 0 <= i < j < |decoded| && decoded[i]["location"] == decoded[j]["location"])
      && (row["has_duplicated_stops"] == Int(0) <==>
            forall i, j :: 0 <= i < j < |decoded| ==> decoded[i]["location"] != decoded[j]["location"])
  {
    var linked := Linked(family, decoded);
    assert Locations(linked) == Locations(decoded);
    DuplicateFlagMeaning(decoded);
  }

  // ---------------------------------------------------------------------------
  // create_journey_timetable as the source writes it
  // ---------------------------------------------------------------------------

  /** The journey fails when one of its lines fails to decode. */
  lemma DecodeFailureFails(family: Family, decode: LineDecoder, ids: seq<nat>, header: Record, raw: seq<string>, j: nat)
    requires forall k :: 0 <= k < |ids| ==> ids[k] < |raw|
    requires forall k :: 1 <= k < |ids| ==> ids[k] == ids[k - 1] + 1
    requires j < |ids| && decode(raw[ids[j]]).Failure?
    ensures Journey(family, decode, ids, header, raw).Failure?
  {
    var rs := DecodeAll(decode, Lines(raw, ids));
    assert rs[j].Failure?;
  }

  /** The journey fails when a key the assembly reads is missing from a decoded line. */
  lemma MissingKeyFails(family: Family, decode: LineDecoder, ids: seq<nat>, header: Record, raw: seq<string>,
                        j: nat, key: string)
    requires forall k :: 0 <= k < |ids| ==> ids[k] < |raw|
    requires forall k :: 1 <= k < |ids| ==> ids[k] == ids[k - 1] + 1
    requires j < |ids| && decode(raw[ids[j]]).Success? && key !in decode(raw[ids[j]]).value
    requires key == "location" || (j >= 1 && key == ArrivalKey(family))
    ensures Journey(family, decode, ids, header, raw).Failure?
  {
    var rs := DecodeAll(decode, Lines(raw, ids));
    assert rs[j] == decode(raw[ids[j]]);
    var c := Collect(rs);
    if c.Success? {
      assert c.value[j] == decode(raw[ids[j]]).value;
      assert !Linkable(family, c.value);
    }
  }

  /** When every line decodes, the journey is the assembly of the decoded lines. */
  lemma AllDecoded(family: Family, decode: LineDecoder, ids: seq<nat>, header: Record, raw: seq<string>,
                   decoded: seq<Record>)
    requires forall k :: 0 <= k < |ids| ==> ids[k] < |raw|
    requires forall k :: 1 <= k < |ids| ==> ids[k] == ids[k - 1] + 1
    requires |decoded| == |ids|
    requires forall k :: 0 <= k < |ids| ==> decode(raw[ids[k]]) == Success(decoded[k])
    ensures Journey(family, decode, ids, header, raw) == AssembleJourney(family, decoded, header)
  {
    var rs := DecodeAll(decode, Lines(raw, ids));
    assert forall k :: 0 <= k < |ids| ==> rs[k] == Success(decoded[k]);
    assert Collect(rs).value == decoded;
  }

  /**
   * The successor step of `create_journey_timetable`: decode stop `j` and read its location and
   * arrival time, which aborts the journey when either key is missing.
   */
  method DecodeSuccessor(family: Family, decode: LineDecoder, ids: seq<nat>, ghost header: Record, raw: seq<string>, j: nat)
    returns (r: Result<Record, Error>)
    requires forall k :: 0 <= k < |ids| ==> ids[k] < |raw|
    requires forall k :: 1 <= k < |ids| ==> ids[k] == ids[k - 1] + 1
    requires 1 <= j < |ids|
    ensures r.Failure? ==> Journey(family, decode, ids, header, raw).Failure?
    ensures r.Success? ==> decode(raw[ids[j]]) == r && "location" in r.value && ArrivalKey(family) in r.value
  {
    r := decode(raw[ids[j]]);
    if r.Failure? {
      DecodeFailureFails(family, decode, ids, header, raw, j);
      return r;
    }
    if "location" !in r.value {
      MissingKeyFails(family, decode, ids, header, raw, j, "location");
      return Failure(MissingField("location"));
    }
    if ArrivalKey(family) !in r.value {
      MissingKeyFails(family, decode, ids, header, raw, j, ArrivalKey(family));
      return Failure(MissingField(ArrivalKey(family)));
    }
  }

  /**
   * The loop of `create_journey_timetable` after the origin: each intermediate stop decoded with the
   * line after it, every stop but the last linked to its successor.
   */
  method LinkIntermediateStops(family: Family, decode: LineDecoder, ids: seq<nat>, ghost header: Record,
                               raw: seq<string>, origin: Record, next: Record)
    returns (r: Result<seq<Record>, Error>, ghost decoded: seq<Record>)
    requires forall k :: 0 <= k < |ids| ==> ids[k] < |raw|
    requires forall k :: 1 <= k < |ids| ==> ids[k] == ids[k - 1] + 1
    requires |ids| >= 2 && decode(raw[ids[0]]) == Success(origin) && decode(raw[ids[1]]) == Success(next)
    requires "location" in next && ArrivalKey(family) in next
    ensures r.Failure? ==> Journey(family, decode, ids, header, raw).Failure?
    ensures r.Success? ==> |decoded| == |ids| && |r.value| == |ids| - 1
    ensures r.Success? ==> forall k :: 0 <= k < |ids| ==> decode(raw[ids[k]]) == Success(decoded[k])
    ensures r.Success? ==> forall k :: 1 <= k < |ids| ==> "location" in decoded[k] && ArrivalKey(family) in decoded[k]
    ensures r.Success? ==> forall k :: 0 <= k < |ids| - 1 ==> r.value[k] == Link(family, decoded[k], decoded[k + 1])
  {
    var timetable := [Link(family, origin, next)];
    decoded := [origin, next];
    for j := 1 to |ids| - 1
      invariant |decoded| == j + 1 && |timetable| == j
      invariant forall k :: 0 <= k <= j ==> decode(raw[ids[k]]) == Success(decoded[k])
      invariant forall k :: 1 <= k <= j ==> "location" in decoded[k] && ArrivalKey(family) in decoded[k]
      invariant forall k :: 0 <= k < j ==> timetable[k] == Link(family, decoded[k], decoded[k + 1])
    {
      var stop := decode(raw[ids[j]]);
      assert stop == Success(decoded[j]);
      assert ids[j] + 1 == ids[j + 1];
      var nextStop := DecodeSuccessor(family, decode, ids, header, raw, j + 1);
      if nextStop.Failure? {
        return Failure(nextStop.error), decoded;
      }
      var linked := Link(family, stop.value, nextStop.value);
      timetable := timetable + [linked];
      decoded := decoded + [nextStop.value];
    }
    return Success(timetable), decoded;
  }

  /**
   * The linking half of `create_journey_timetable`: decode the origin, its successor and the
   * destination, then each intermediate stop with the line after it, and link every stop but the
   * last to its successor. `ids` must be consecutive, as the segmentation produces them.
   */
  method LinkStops(family: Family, decode: LineDecoder, ids: seq<nat>, ghost header: Record, raw: seq<string>)
    returns (r: Result<seq<Record>, Error>, ghost decoded: seq<Record>)
    requires forall k :: 0 <= k < |ids| ==> ids[k] < |raw|
    requires forall k :: 1 <= k < |ids| ==> ids[k] == ids[k - 1] + 1
    ensures r.Failure? ==> Journey(family, decode, ids, header, raw).Failure?
    ensures r.Success? ==> |ids| >= 2 && |decoded| == |ids| && |r.value| == |ids|
    ensures r.Success? ==> forall k :: 0 <= k < |ids| ==> decode(raw[ids[k]]) == Success(decoded[k])
    ensures r.Success? ==> forall k :: 1 <= k < |ids| ==> "location" in decoded[k] && ArrivalKey(family) in decoded[k]
    ensures r.Success? ==> forall k :: 0 <= k < |ids| - 1 ==> r.value[k] == Link(family, decoded[k], decoded[k + 1])
    ensures r.Success? ==> r.value[|ids| - 1] == decoded[|ids| - 1]
  {
    decoded := [];
    if |ids| == 0 {
      return Failure(MissingStop(0)), decoded;
    }
    var origin := decode(raw[ids[0]]);
    if origin.Failure? {
      DecodeFailureFails(family, decode, ids, header, raw, 0);
      return Failure(origin.error), decoded;
    }
    if |ids| == 1 {
      return Failure(MissingStop(1)), decoded;
    }
    var next := DecodeSuccessor(family, decode, ids, header, raw, 1);
    if next.Failure? {
      return Failure(next.error), decoded;
    }
    var destination := decode(raw[ids[|ids| - 1]]);
    if destination.Failure? {
      DecodeFailureFails(family, decode, ids, header, raw, |ids| - 1);
      return Failure(destination.error), decoded;
    }
    var timetable;
    timetable, decoded := LinkIntermediateStops(family, decode, ids, header, raw, origin.value, next.value);
    if timetable.Failure? {
      return Failure(timetable.error), decoded;
    }
    return Success(timetable.value + [destination.value]), decoded;
  }

  /** The closing loop of `create_journey_timetable`: every row gets the flag, then the header data. */
  method AddJourneyData(timetable: seq<Record>, hasDuplicates: int, journeyHeaderData: Record)
    returns (rows: seq<Record>)
    ensures |rows| == |timetable|
    ensures forall k :: 0 <= k < |rows| ==>
      rows[k] == timetable[k]["has_duplicated_stops" := Int(hasDuplicates)] + journeyHeaderData
  {
    rows := timetable;
    for k := 0 to |rows|
      invariant |rows| == |timetable|
      invariant forall m :: k <= m < |rows| ==> rows[m] == timetable[m]
      invariant forall m :: 0 <= m < k ==>
        rows[m] == timetable[m]["has_duplicated_stops" := Int(hasDuplicates)] + journeyHeaderData
    {
      rows := rows[k := rows[k]["has_duplicated_stops" := Int(hasDuplicates)] + journeyHeaderData];
    }
  }

  /** What `LinkStops` returns is `Linked` of the decoded stops once the origin has a location. */
  lemma LinkedRows(family: Family, decoded: seq<Record>, timetable: seq<Record>)
    requires |decoded| >= 2 && |timetable| == |decoded|
    requires forall k :: 1 <= k < |decoded| ==> "location" in decoded[k] && ArrivalKey(family) in decoded[k]
    requires forall k :: 0 <= k < |decoded| - 1 ==> timetable[k] == Link(family, decoded[k], decoded[k + 1])
    requires timetable[|decoded| - 1] == decoded[|decoded| - 1]
    ensures (forall k :: 0 <= k < |timetable| ==> "location" in timetable[k]) <==> "location" in decoded[0]
    ensures "location" in decoded[0] ==> Linkable(family, decoded) && timetable == Linked(family, decoded)
  {
    assert timetable[0] == Link(family, decoded[0], decoded[1]);
    forall k | 1 <= k < |timetable| ensures "location" in timetable[k] {
      if k < |decoded| - 1 {
        assert timetable[k] == Link(family, decoded[k], decoded[k + 1]);
      }
    }
    if "location" in decoded[0] {
      var rows := Linked(family, decoded);
      forall k | 0 <= k < |rows| ensures timetable[k] == rows[k] {
        if k < |decoded| - 1 {
          assert timetable[k] == Link(family, decoded[k], decoded[k + 1]);
        }
      }
    }
  }

  /** The journey's rows are the linked stops stamped with the duplicate flag and the header data. */
  lemma JourneyIs(family: Family, decode: LineDecoder, ids: seq<nat>, header: Record, raw: seq<string>,
                  decoded: seq<Record>, stamped: seq<Record>)
    requires forall k :: 0 <= k < |ids| ==> ids[k] < |raw|
    requires forall k :: 1 <= k < |ids| ==> ids[k] == ids[k - 1] + 1
    requires |ids| >= 2 && |decoded| == |ids|
    requires forall k :: 0 <= k < |ids| ==> decode(raw[ids[k]]) == Success(decoded[k])
    requires Linkable(family, decoded)
    requires var rows := Linked(family, decoded);
      && |stamped| == |rows|
      && forall k :: 0 <= k < |rows| ==>
           stamped[k] == rows[k]["has_duplicated_stops" := DuplicateFlag(rows)] + HeaderData(header)
    ensures Journey(family, decode, ids, header, raw) == Success(stamped)
  {
    AllDecoded(family, decode, ids, header, raw, decoded);
    var rows := Linked(family, decoded);
    assert stamped == Stamp(rows, DuplicateFlag(rows), header);
  }

  /**
   * `create_journey_timetable`: link the journey's stops, flag repeated locations and merge the
   * header data into every row. `ids` must be consecutive, as the segmentation produces them.
   */
  method CreateJourneyTimetable(family: Family, decode: LineDecoder, ids: seq<nat>, header: Record, raw: seq<string>)
    returns (r: Result<seq<Record>, Error>)
    requires forall k :: 0 <= k < |ids| ==> ids[k] < |raw|
    requires forall k :: 1 <= k < |ids| ==> ids[k] == ids[k - 1] + 1
    ensures r.Success? <==> Journey(family, decode, ids, header, raw).Success?
    ensures r.Success? ==> r.value == Journey(family, decode, ids, header, raw).value
  {
    var journeyHeaderData := HeaderData(header);
    var linked, decoded := LinkStops(family, decode, ids, header, raw);
    if linked.Failure? {
      return Failure(linked.error);
    }
    var timetable := linked.value;
    LinkedRows(family, decoded, timetable);
    if exists k | 0 <= k < |timetable| :: "location" !in timetable[k] {
      MissingKeyFails(family, decode, ids, header, raw, 0, "location");
      return Failure(MissingField("location"));
    }
    var hasDuplicates := if Duplicates(Locations(timetable)) != [] then 1 else 0;
    var stamped := AddJourneyData(timetable, hasDuplicates, journeyHeaderData);
    assert Int(hasDuplicates) == DuplicateFlag(timetable);
    JourneyIs(family, decode, ids, header, raw, decoded, stamped);
    return Success(stamped);
  }

  // ---------------------------------------------------------------------------
  // process_raw_timetable
  // ---------------------------------------------------------------------------

  /** The header fields the converter reads to report progress: a missing one is a KeyError. */
  function LoggedKeys(family: Family): seq<string> {
    if family == BusCoach then ["operator", "unique_id"] else ["train_uid"]
  }

  /** The first of `keys` absent from `d`, if any. */
  function Absent(keys: seq<string>, d: Record): (r: Option<string>)
    ensures r.None? <==> forall k :: 0 <= k < |keys| ==> keys[k] in d
    ensures r.Some? ==> r.value !in d && exists i :: 0 <= i < |keys| && keys[i] == r.value && (forall j :: 0 <= j < i ==> keys[j] in d)
  {
    if keys == [] then None
    else if keys[0] !in d then Some(keys[0])
    else Absent(keys[1..], d)
  }

  /** The rows of the journey whose header is at index `i`. */
  function JourneyAt(family: Family, decode: LineDecoder, raw: seq<string>, i: nat): Result<seq<Record>, Error>
    requires i < |raw|
  {
    match decode(raw[i])
    case Failure(e) => Failure(e)
    case Success(header) =>
      match Absent(LoggedKeys(family), header)
      case Some(key) => Failure(MissingField(key))
      case None => Journey(family, decode, StopIds(family, raw, i), header, raw)
  }

  /** `process_raw_timetable` over the first `n` lines: the journeys of the headers among them, in order. */
  function ProcessUpTo(family: Family, decode: LineDecoder, raw: seq<string>, n: nat): (r: Result<seq<Record>, Error>)
    requires n <= |raw|
    ensures (forall m :: 0 <= m < n ==> !IsHeader(family, raw[m])) ==> r == Success([])
  {
    if n == 0 then Success([])
    else
      match ProcessUpTo(family, decode, raw, n - 1)
      case Failure(e) => Failure(e)
      case Success(timetable) =>
        if !IsHeader(family, raw[n - 1]) then Success(timetable)
        else
          match JourneyAt(family, decode, raw, n - 1)
          case Failure(e) => Failure(e)
          case Success(rows) => Success(timetable + rows)
  }

  /** `process_raw_timetable`. */
  function Process(family: Family, decode: LineDecoder, raw: seq<string>): Result<seq<Record>, Error> {
    ProcessUpTo(family, decode, raw, |raw|)
  }

  /** A run over the first `n` lines succeeds exactly when the journey of every header among them does. */
  lemma {:induction false} ProcessSucceeds(family: Family, decode: LineDecoder, raw: seq<string>, n: nat)
    requires n <= |raw|
    ensures ProcessUpTo(family, decode, raw, n).Success? <==>
      forall m :: 0 <= m < n && IsHeader(family, raw[m]) ==> JourneyAt(family, decode, raw, m).Success?
    decreases n
  {
    if n > 0 {
      ProcessSucceeds(family, decode, raw, n - 1);
      var last := IsHeader(family, raw[n - 1]) ==> JourneyAt(family, decode, raw, n - 1).Success?;
      assert ProcessUpTo(family, decode, raw, n).Success? <==> ProcessUpTo(family, decode, raw, n - 1).Success? && last;
      if ProcessUpTo(family, decode, raw, n).Success? {
        forall m | 0 <= m < n && IsHeader(family, raw[m])
          ensures JourneyAt(family, decode, raw, m).Success?
        {
          if m < n - 1 {
            assert 0 <= m < n - 1 && IsHeader(family, raw[m]);
          }
        }
      } else if !last {
        assert 0 <= n - 1 < n && IsHeader(family, raw[n - 1]) && JourneyAt(family, decode, raw, n - 1).Failure?;
      } else {
        var m :| 0 <= m < n - 1 && IsHeader(family, raw[m]) && !JourneyAt(family, decode, raw, m).Success?;
        assert 0 <= m < n && IsHeader(family, raw[m]) && !JourneyAt(family, decode, raw, m).Success?;
      }
    }
  }

  /** Once a prefix fails, every longer prefix fails. */
  lemma {:induction false} FailureStays(family: Family, decode: LineDecoder, raw: seq<string>, n: nat, m: nat)
    requires n <= m <= |raw| && ProcessUpTo(family, decode, raw, n).Failure?
    ensures ProcessUpTo(family, decode, raw, m).Failure?
    decreases m - n
  {
    if n < m {
      FailureStays(family, decode, raw, n + 1, m);
    }
  }

  /** A successful run extends the result of every shorter prefix. */
  lemma {:induction false} PrefixesExtend(family: Family, decode: LineDecoder, raw: seq<string>, n: nat, m: nat)
    requires n <= m <= |raw| && ProcessUpTo(family, decode, raw, m).Success?
    ensures ProcessUpTo(family, decode, raw, n).Success?
    ensures ProcessUpTo(family, decode, raw, n).value <= ProcessUpTo(family, decode, raw, m).value
    decreases m - n
  {
    if n < m {
      PrefixesExtend(family, decode, raw, n, m - 1);
    }
  }

  /** Lines before the first header belong to no journey. */
  lemma {:induction false} NothingBeforeFirstHeader(family: Family, decode: LineDecoder, raw: seq<string>, n: nat)
    requires n <= |raw| && forall m :: 0 <= m < n ==> !IsHeader(family, raw[m])
    ensures ProcessUpTo(family, decode, raw, n) == Success([])
  {
    if n > 0 {
      NothingBeforeFirstHeader(family, decode, raw, n - 1);
    }
  }

  /** The number of header lines among the first `n`. */
  function Headers(family: Family, raw: seq<string>, n: nat): nat
    requires n <= |raw|
  {
    if n == 0 then 0 else Headers(family, raw, n - 1) + (if IsHeader(family, raw[n - 1]) then 1 else 0)
  }

  lemma {:induction false} NoHeaders(family: Family, raw: seq<string>, n: nat)
    requires n <= |raw| && forall m :: 0 <= m < n ==> !IsHeader(family, raw[m])
    ensures Headers(family, raw, n) == 0
  {
    if n > 0 {
      NoHeaders(family, raw, n - 1);
    }
  }

  /** A successful journey has one row per owned line. */
  lemma JourneyAtLength(family: Family, decode: LineDecoder, raw: seq<string>, i: nat)
    requires i < |raw| && JourneyAt(family, decode, raw, i).Success?
    ensures |JourneyAt(family, decode, raw, i).value| == |StopIds(family, raw, i)|
  {
    var header := decode(raw[i]).value;
    var ids := StopIds(family, raw, i);
    var decoded := Collect(DecodeAll(decode, Lines(raw, ids))).value;
    JourneyLength(family, decoded, header);
  }

  /** One more line adds the rows of its journey when it is a header, and nothing otherwise. */
  lemma ProcessStep(family: Family, decode: LineDecoder, raw: seq<string>, n: nat)
    requires 0 < n <= |raw| && ProcessUpTo(family, decode, raw, n).Success?
    ensures ProcessUpTo(family, decode, raw, n - 1).Success?
    ensures |ProcessUpTo(family, decode, raw, n).value|
      == |ProcessUpTo(family, decode, raw, n - 1).value|
         + if IsHeader(family, raw[n - 1]) then NextHeader(family, raw, n) - n else 0
  {
    if IsHeader(family, raw[n - 1]) {
      JourneyAtLength(family, decode, raw, n - 1);
    }
  }

  /** The rows expected after the first `n` lines: see `ProcessRowCount`. */
  function ExpectedRows(family: Family, raw: seq<string>, n: nat): int
    requires n <= |raw|
  {
    var first := NextHeader(family, raw, 0);
    if n <= first then 0 else NextHeader(family, raw, n) - first - Headers(family, raw, n)
  }

  /** The arithmetic of one step of `ProcessRowCount`. */
  lemma ExpectedRowsStep(family: Family, raw: seq<string>, n: nat)
    requires 0 < n <= |raw|
    ensures ExpectedRows(family, raw, n)
      == ExpectedRows(family, raw, n - 1) + if IsHeader(family, raw[n - 1]) then NextHeader(family, raw, n) - n else 0
  {
    var first := NextHeader(family, raw, 0);
    if IsHeader(family, raw[n - 1]) {
      assert first <= n - 1;
      if n - 1 == first {
        NoHeaders(family, raw, first);
      } else {
        NextHeaderIs(family, raw, n - 1, n - 1);
      }
    } else if n > first {
      NextHeaderIs(family, raw, n - 1, NextHeader(family, raw, n));
    }
  }

  /**
   * Row count: after a successful run over the first `n` lines, with the first header at index
   * `first`, the output has one row per non-header line from `first` up to the end of the journey
   * the n-th line belongs to; none when `n` does not reach past the first header.
   */
  lemma {:induction false} ProcessRowCount(family: Family, decode: LineDecoder, raw: seq<string>, n: nat)
    requires n <= |raw| && ProcessUpTo(family, decode, raw, n).Success?
    ensures var first := NextHeader(family, raw, 0);
      |ProcessUpTo(family, decode, raw, n).value|
        == if n <= first then 0 else NextHeader(family, raw, n) - first - Headers(family, raw, n)
  {
    if n > 0 {
      ProcessStep(family, decode, raw, n);
      ProcessRowCount(family, decode, raw, n - 1);
      ExpectedRowsStep(family, raw, n);
    }
  }

  /** Over the whole raw timetable: one row per non-header line after the first header. */
  lemma ProcessRowTotal(family: Family, decode: LineDecoder, raw: seq<string>)
    requires Process(family, decode, raw).Success?
    ensures var first := NextHeader(family, raw, 0);
      |Process(family, decode, raw).value| == if first == |raw| then 0 else |raw| - first - Headers(family, raw, |raw|)
  {
    ProcessRowCount(family, decode, raw, |raw|);
  }

  /**
   * The scan of `process_raw_timetable` after a header at `i`: the indices of the lines after it,
   * up to the next header or the end of the table.
   */
  method FindStopIds(family: Family, raw: seq<string>, i: nat) returns (stopsId: seq<nat>)
    requires i < |raw|
    ensures stopsId == StopIds(family, raw, i)
  {
    var nextJourneyFound := false;
    var stopCount := 1;
    stopsId := [];
    while !nextJourneyFound
      invariant i + stopCount <= |raw|
      invariant |stopsId| == stopCount - 1
      invariant forall k :: 0 <= k < |stopsId| ==> stopsId[k] == i + 1 + k
      invariant forall m :: i + 1 <= m < i + stopCount ==> !IsHeader(family, raw[m])
      invariant nextJourneyFound ==> i + stopCount < |raw| && IsHeader(family, raw[i + stopCount])
      decreases |raw| - (i + stopCount), if nextJourneyFound then 0 else 1
    {
      var currentId := i + stopCount;
      if currentId >= |raw| {
        break;
      }
      var currentRow := raw[currentId];
      if HeaderTag(family) <= currentRow {
        nextJourneyFound := true;
        continue;
      }
      stopsId := stopsId + [currentId];
      stopCount := stopCount + 1;
    }
    NextHeaderIs(family, raw, i + 1, i + stopCount);
  }

  /**
   * `process_raw_timetable`: every header line starts a journey made of the lines after it up to the
   * next header or the end; the journeys' rows are appended in header order.
   */
  method ProcessRawTimetable(family: Family, decode: LineDecoder, raw: seq<string>) returns (r: Result<seq<Record>, Error>)
    ensures r.Success? <==> Process(family, decode, raw).Success?
    ensures r.Success? ==> r.value == Process(family, decode, raw).value
  {
    var timetable: seq<Record> := [];
    for i := 0 to |raw|
      invariant ProcessUpTo(family, decode, raw, i) == Success(timetable)
    {
      if HeaderTag(family) <= raw[i] {
        var journeyTimetable := ReadJourney(family, decode, raw, i);
        if journeyTimetable.Failure? {
          FailureStays(family, decode, raw, i + 1, |raw|);
          return Failure(journeyTimetable.error);
        }
        timetable := timetable + journeyTimetable.value;
      }
    }
    return Success(timetable);
  }

  /** One pass of the loop of `process_raw_timetable` at a header line: the rows of that journey, or why it fails. */
  method ReadJourney(family: Family, decode: LineDecoder, raw: seq<string>, i: nat) returns (r: Result<seq<Record>, Error>)
    requires i < |raw|
    ensures r.Success? <==> JourneyAt(family, decode, raw, i).Success?
    ensures r.Success? ==> r.value == JourneyAt(family, decode, raw, i).value
  {
    var journeyHeader := decode(raw[i]);
    if journeyHeader.Failure? {
      return Failure(journeyHeader.error);
    }
    var missing := Absent(LoggedKeys(family), journeyHeader.value);
    if missing.Some? {
      return Failure(MissingField(missing.value));
    }
    var stopsId := FindStopIds(family, raw, i);
    r := CreateJourneyTimetable(family, decode, stopsId, journeyHeader.value, raw);
  }
}
