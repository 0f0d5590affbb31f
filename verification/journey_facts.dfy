/**
 * The journey assembly instantiated with the families' own decoders: which keys a decoded
 * header contributes to the stop rows, and what that means for the bus/coach and rail tables.
 */
module JourneyFacts {
  import opened Wrappers
  import opened Text
  import opened Records
  import opened Layouts
  import opened Decoder
  import opened Journeys
  import Weekdays

  /** `get_journey_data` of a family's table as a line decoder. */
  function DecoderOf(f: Format): LineDecoder
    requires WellFormed(f)
  {
    line => Decode(f, line)
  }

  /** `process_raw_timetable` (bus/coach) or `process_raw_scotrail_timetable` (rail) of a table. */
  function Timetable(f: Format, raw: seq<string>): Result<seq<Record>, Error>
    requires JourneyFormat(f)
  {
    Process(f.family, DecoderOf(f), raw)
  }

  /** "record_identity" is never part of the header data: every stop keeps its own tag. */
  lemma RecordIdentityNotMerged(header: Record)
    ensures "record_identity" !in HeaderData(header)
  {
    assert OccursAt("record_identity", "record_identity", 0);
  }

  /** A decoded line holds none of the keys the assembly adds. */
  lemma DecodedHasNoLinkKeys(f: Format, line: string)
    requires WellFormed(f) && Decode(f, line).Success?
    ensures var d := Decode(f, line).value;
      && "next_stop_id" !in d && "next_stop_arrival_time" !in d && "has_duplicated_stops" !in d
      && "next_stop_id" !in HeaderData(d) && "next_stop_arrival_time" !in HeaderData(d)
      && "has_duplicated_stops" !in HeaderData(d)
  {
    var tag := Tag(line);
    assert WellFormedLayout(f.layouts[tag]);
  }

  /**
   * In a journey decoded with a family's own decoder, every row but the last carries the next
   * line's location and arrival time, the last row carries neither, and every row carries the
   * journey's duplicate flag.
   */
  lemma DecodedJourneyLinks(f: Format, hline: string, lines: seq<string>, decoded: seq<Record>, k: nat)
    requires WellFormed(f) && Decode(f, hline).Success?
    requires |decoded| == |lines| && forall m :: 0 <= m < |lines| ==> Decode(f, lines[m]) == Success(decoded[m])
    requires AssembleJourney(f.family, decoded, Decode(f, hline).value).Success? && k < |decoded|
    ensures var row := AssembleJourney(f.family, decoded, Decode(f, hline).value).value[k];
      && (k < |decoded| - 1 ==>
            && "next_stop_id" in row && row["next_stop_id"] == decoded[k + 1]["location"]
            && "next_stop_arrival_time" in row
            && row["next_stop_arrival_time"] == decoded[k + 1][ArrivalKey(f.family)])
      && (k == |decoded| - 1 ==> "next_stop_id" !in row && "next_stop_arrival_time" !in row)
      && "has_duplicated_stops" in row && row["has_duplicated_stops"] == DuplicateFlag(decoded)
  {
    var header := Decode(f, hline).value;
    DecodedHasNoLinkKeys(f, hline);
    DecodedHasNoLinkKeys(f, lines[k]);
    Linking(f.family, decoded, header, k);
    DuplicateFlagUniform(f.family, decoded, header, k);
  }

  /** No bus/coach stop field other than "record_identity" is a field of the QS header. */
  lemma QOSharesOnlyIdentity(key: string)
    requires key in QO && key in QS
    ensures key == "record_identity"
  {
  }

  lemma QISharesOnlyIdentity(key: string)
    requires key in QI && key in QS
    ensures key == "record_identity"
  {
  }

  lemma QTSharesOnlyIdentity(key: string)
    requires key in QT && key in QS
    ensures key == "record_identity"
  {
  }

  /** A field of a bus/coach stop layout that the QS header also has is the record identity. */
  lemma StopSharesOnlyIdentity(key: string)
    requires key in QO || key in QI || key in QT
    ensures key in QS ==> key == "record_identity"
  {
    if key in QS {
      if key in QO {
        QOSharesOnlyIdentity(key);
      } else if key in QI {
        QISharesOnlyIdentity(key);
      } else {
        QTSharesOnlyIdentity(key);
      }
    }
  }

  /** A decoded bus/coach header has exactly the QS layout's fields and the synthesised `unique_identifier`. */
  lemma BusHeaderKeys(f: Format, hline: string)
    requires WellFormed(f) && f.family == BusCoach && Tag(hline) == "QS" && "QS" in f.layouts
    ensures Decode(f, hline).Success?
    ensures Decode(f, hline).value.Keys == f.layouts["QS"].Keys + {"unique_identifier"}
  {
    BusHeaderIsText(f, hline, "operator");
    DecodedField(f, hline, "operator");
  }

  /**
   * Bus/coach: the data of a QS header never touches a field of a stop's own layout, so every
   * decoded stop field reaches its row unchanged.
   */
  lemma BusStopFieldsKept(header: Record, decoded: seq<Record>, k: nat, key: string)
    requires header.Keys == QS.Keys + {"unique_identifier"}
    requires AssembleJourney(BusCoach, decoded, header).Success? && k < |decoded|
    requires key in QO || key in QI || key in QT
    ensures var row := AssembleJourney(BusCoach, decoded, header).value[k];
      && (key in row <==> key in decoded[k])
      && (key in row ==> row[key] == decoded[k][key])
  {
    StopSharesOnlyIdentity(key);
    if key == "record_identity" {
      RecordIdentityNotMerged(header);
    }
    StopFieldKept(BusCoach, decoded, header, k, key);
  }

  /** A rail journey header decodes, and holds every field of its layout. */
  lemma RailHeaderFields(f: Format, hline: string, key: string)
    requires WellFormed(f) && f.family == ScotRail && Tag(hline) in f.layouts
    ensures Decode(f, hline).Success?
    ensures key in f.layouts[Tag(hline)] ==> key in Decode(f, hline).value
  {
    OnlyBusRejects(f, hline);
    DecodedField(f, hline, key);
  }

  /**
   * Rail: LO, LI and LT have a `spare` field of their own, but on every stop row the value of the
   * BS header's `spare` wins.
   */
  lemma RailSpareFromHeader(header: Record, decoded: seq<Record>, k: nat)
    requires "spare" in header
    requires AssembleJourney(ScotRail, decoded, header).Success? && k < |decoded|
    ensures var row := AssembleJourney(ScotRail, decoded, header).value[k];
      "spare" in row && row["spare"] == header["spare"]
  {
    assert !IsInfix("record_identity", "spare");
    HeaderWins(ScotRail, decoded, header, k, "spare");
  }

  /**
   * Rail: every stop row carries the BS header's `days_run`, so the rows of a rail journey have
   * the `days_run` column the weekday expansion reads, and the expansion succeeds on them.
   */
  lemma RailJourneyExpands(header: Record, decoded: seq<Record>)
    requires "days_run" in header
    requires AssembleJourney(ScotRail, decoded, header).Success?
    ensures var rows := AssembleJourney(ScotRail, decoded, header).value;
      && (forall k :: 0 <= k < |rows| ==> "days_run" in rows[k] && rows[k]["days_run"] == header["days_run"])
      && Weekdays.ExpandTable(rows).Success?
  {
    var rows := AssembleJourney(ScotRail, decoded, header).value;
    assert !IsInfix("record_identity", "days_run");
    forall k | 0 <= k < |rows|
      ensures "days_run" in rows[k] && rows[k]["days_run"] == header["days_run"]
    {
      HeaderWins(ScotRail, decoded, header, k, "days_run");
    }
    Weekdays.ExpandTableNeedsARow(rows);
  }
}
