/**
 * The stop-location extractor's table: every QL/QB line decoded in order, then the records at
 * even positions (the QL frame) placed side by side with those at odd positions (the QB frame),
 * so that row k holds decoded records 2k and 2k+1.
 */
module StopLocationTable {
  import opened Wrappers
  import opened Records
  import opened Layouts
  import opened Decoder
  import opened Journeys
  import opened JourneyFacts

  /** `xs[::2]`: the elements at even positions. */
  function EveryOther<T>(xs: seq<T>): (r: seq<T>)
    ensures |r| == (|xs| + 1) / 2
    ensures forall k :: 0 <= k < |r| ==> r[k] == xs[2 * k]
    decreases |xs|
  {
    if |xs| <= 1 then xs
    else
      var rest := EveryOther(xs[2..]);
      assert forall k :: 0 <= k < |rest| ==> rest[k] == xs[2 * (k + 1)];
      [xs[0]] + rest
  }

  /** `xs[1::2]`: the elements at odd positions. */
  function OddPositions<T>(xs: seq<T>): (r: seq<T>)
    ensures |r| == |xs| / 2
    ensures forall k :: 0 <= k < |r| ==> r[k] == xs[2 * k + 1]
  {
    if xs == [] then [] else EveryOther(xs[1..])
  }

  /** A row of the combined table: the QL-frame record and the QB-frame record at that position, if any. */
  datatype LocationRow = LocationRow(ql: Option<Record>, qb: Option<Record>)

  function At(xs: seq<Record>, k: nat): Option<Record> {
    if k < |xs| then Some(xs[k]) else None
  }

  /**
   * `pd.concat([left, right], axis=1)`: rows aligned by position, as many as the longer frame,
   * with the shorter frame's columns absent in the extra rows.
   */
  function SideBySide(left: seq<Record>, right: seq<Record>): (rows: seq<LocationRow>)
    ensures |rows| == if |left| < |right| then |right| else |left|
  {
    var n := if |left| < |right| then |right| else |left|;
    seq(n, k requires 0 <= k < n => LocationRow(At(left, k), At(right, k)))
  }

  /** The QL frame beside the QB frame. */
  function Paired(ds: seq<Record>): seq<LocationRow> {
    SideBySide(EveryOther(ds), OddPositions(ds))
  }

  /**
   * Row k pairs decoded record 2k with record 2k+1; with an odd number of records the last row
   * has no QB part.
   */
  lemma PairedSpec(ds: seq<Record>)
    ensures |Paired(ds)| == (|ds| + 1) / 2
    ensures forall k :: 0 <= k < |Paired(ds)| ==>
      Paired(ds)[k] == LocationRow(Some(ds[2 * k]), if 2 * k + 1 < |ds| then Some(ds[2 * k + 1]) else None)
  {
  }

  /** The records a row holds, QL part first. */
  function RowRecords(row: LocationRow): seq<Record> {
    (if row.ql.Some? then [row.ql.value] else []) + (if row.qb.Some? then [row.qb.value] else [])
  }

  /** The records of a table, row by row. */
  function Unpaired(rows: seq<LocationRow>): seq<Record>
    decreases |rows|
  {
    if rows == [] then [] else RowRecords(rows[0]) + Unpaired(rows[1..])
  }

  /** Pairing consecutive records and reading the rows back gives the records in their order. */
  lemma {:induction false} UnpairPaired(ds: seq<Record>)
    ensures Unpaired(Paired(ds)) == ds
    decreases |ds|
  {
    PairedSpec(ds);
    if |ds| == 1 {
      assert Paired(ds) == [LocationRow(Some(ds[0]), None)];
      assert Unpaired(Paired(ds)[1..]) == [];
    } else if |ds| >= 2 {
      var rest := ds[2..];
      UnpairPaired(rest);
      PairedSpec(rest);
      assert Paired(ds)[1..] == Paired(rest);
      assert ds == [ds[0], ds[1]] + rest;
    }
  }

  /**
   * `make_gdf_with_locations` up to the combined table: decode every line, the first unknown tag
   * aborting the run, then pair the records.
   */
  function LocationTable(raw: seq<string>): Result<seq<LocationRow>, Error> {
    match DecodeLocations(raw)
    case Failure(e) => Failure(e)
    case Success(ds) => Success(Paired(ds))
  }

  /** `get_location_data` of every line, gathered: the records in order, or the first failure. */
  function DecodeLocations(raw: seq<string>): Result<seq<Record>, Error> {
    StopLocationFormatIsWellFormed();
    Collect(DecodeAll(DecoderOf(StopLocationFormat), raw))
  }

  /** Gathering stops at the first failure, when every earlier line succeeded. */
  lemma CollectFirstFailure(rs: seq<Result<Record, Error>>, i: nat)
    requires i < |rs| && rs[i].Failure? && forall k :: 0 <= k < i ==> rs[k].Success?
    ensures Collect(rs) == Failure(rs[i].error)
  {
    var k :| 0 <= k < |rs| && rs[k] == Failure(Collect(rs).error) && forall j :: 0 <= j < k ==> rs[j].Success?;
    assert k == i;
  }

  /** Gathering lines that all succeeded gives their records in order. */
  lemma CollectAll(rs: seq<Result<Record, Error>>, ds: seq<Record>)
    requires |rs| == |ds| && forall k :: 0 <= k < |rs| ==> rs[k] == Success(ds[k])
    ensures Collect(rs) == Success(ds)
  {
    assert Collect(rs).Success?;
    assert Collect(rs).value == ds;
  }

  /** The decoding loop of `make_gdf_with_locations`: one record per line, in order; the first failure aborts. */
  method DecodeEach(decode: LineDecoder, raw: seq<string>) returns (r: Result<seq<Record>, Error>)
    ensures r == Collect(DecodeAll(decode, raw))
  {
    ghost var rs := DecodeAll(decode, raw);
    var stopLocations: seq<Record> := [];
    for i := 0 to |raw|
      invariant |stopLocations| == i
      invariant forall k :: 0 <= k < i ==> rs[k] == Success(stopLocations[k])
    {
      var d := decode(raw[i]);
      if d.Failure? {
        CollectFirstFailure(rs, i);
        return Failure(d.error);
      }
      stopLocations := stopLocations + [d.value];
    }
    CollectAll(rs, stopLocations);
    return Success(stopLocations);
  }

  /** `make_gdf_with_locations` up to the combined table: the decoding loop, the two frames, their concatenation. */
  method MakeLocationTable(raw: seq<string>) returns (r: Result<seq<LocationRow>, Error>)
    ensures r == LocationTable(raw)
  {
    StopLocationFormatIsWellFormed();
    var decoded := DecodeEach(DecoderOf(StopLocationFormat), raw);
    if decoded.Failure? {
      return Failure(decoded.error);
    }
    var qlFrame := EveryOther(decoded.value);
    var qbFrame := OddPositions(decoded.value);
    r := Success(SideBySide(qlFrame, qbFrame));
  }

  /** Every line with an approved tag decodes when the family is not the bus/coach one and each approved tag has a layout. */
  lemma ApprovedLinesDecode(f: Format, lines: seq<string>)
    requires WellFormed(f) && f.family == StopLocations
    requires forall tag :: tag in ApprovedTags(StopLocations) ==> tag in f.layouts
    ensures Collect(DecodeAll(DecoderOf(f), KeepApproved(StopLocations, lines))).Success?
  {
    var raw := KeepApproved(StopLocations, lines);
    var rs := DecodeAll(DecoderOf(f), raw);
    forall k | 0 <= k < |raw| ensures rs[k].Success? {
      OnlyBusRejects(f, raw[k]);
    }
  }

  /**
   * Lines kept by the extractor always decode, so the table of an extracted file is never an
   * abort: it has a row for every two lines, and reading its rows back gives the decoded lines.
   */
  lemma ExtractedTable(lines: seq<string>)
    ensures var raw := KeepApproved(StopLocations, lines);
      && LocationTable(raw).Success?
      && |LocationTable(raw).value| == (|raw| + 1) / 2
      && Unpaired(LocationTable(raw).value) == DecodeLocations(raw).value
  {
    var raw := KeepApproved(StopLocations, lines);
    StopLocationFormatIsWellFormed();
    forall tag | tag in ApprovedTags(StopLocations) ensures tag in StopLocationFormat.layouts {
      ApprovedTagsHaveLayouts(tag);
    }
    ApprovedLinesDecode(StopLocationFormat, lines);
    var ds := DecodeLocations(raw).value;
    PairedSpec(ds);
    UnpairPaired(ds);
  }

  /** A decoded stop-location line has exactly its layout's fields, each the trimmed text of its columns. */
  lemma LocationRecordFields(line: string, key: string)
    requires Tag(line) == "QL" || Tag(line) == "QB"
    ensures Decode(StopLocationFormat, line).Success?
    ensures var layout := StopLocationFormat.layouts[Tag(line)];
      && Decode(StopLocationFormat, line).value.Keys == layout.Keys
      && (key in layout ==> Decode(StopLocationFormat, line).value[key] == Text(FieldText(line, layout[key])))
  {
    StopLocationFormatIsWellFormed();
    LocationFieldsAreText(StopLocationFormat, line, key);
    DecodedField(StopLocationFormat, line, key);
  }
}
