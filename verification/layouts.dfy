/** The fixed-width record layouts: per tag, field name to (length, 1-based start). */
module Layouts {
  import opened Wrappers

  /** The three record families the repository reads. */
  datatype Family = BusCoach | ScotRail | StopLocations

  /** A 1-based column number. */
  type Column = n: int | n >= 1 witness 1

  /** A field's slice: `length` characters from the 1-based column `start`. */
  datatype FieldSpec = FieldSpec(length: nat, start: Column)

  /** One tag's layout: field name to slice (a `specification_dict` entry). */
  type Layout = map<string, FieldSpec>

  /** A family together with its layout table, keyed by tag (the whole `specification_dict`). */
  datatype Format = Format(family: Family, layouts: map<string, Layout>)

  /** The tags kept from a file (`approved_prefixes`). */
  function ApprovedTags(family: Family): set<string> {
    match family
    case BusCoach => {"QS", "QO", "QI", "QT"}
    case ScotRail => {"BS", "LO", "LI", "LT"}
    case StopLocations => {"QL", "QB"}
  }

  /** The tag that opens a journey. */
  function HeaderTag(family: Family): string {
    if family == BusCoach then "QS" else "BS"
  }

  /** The field of the following stop copied into `next_stop_arrival_time`. */
  function ArrivalKey(family: Family): string {
    if family == BusCoach then "published_arrival_time" else "scheduled_arrival_time"
  }

  /** Field names the converters add to a decoded line and that no layout uses. */
  predicate IsAddedKey(k: string) {
    k == "unique_identifier" || k == "next_stop_id" || k == "next_stop_arrival_time" || k == "has_duplicated_stops"
  }

  /** A layout that names the record identity and none of the fields the converters add. */
  predicate WellFormedLayout(layout: Layout) {
    && "record_identity" in layout
    && "unique_identifier" !in layout
    && "next_stop_id" !in layout
    && "next_stop_arrival_time" !in layout
    && "has_duplicated_stops" !in layout
  }

  /** The structural facts about a layout table that the decoder relies on. */
  predicate WellFormed(f: Format) {
    forall tag | tag in f.layouts :: WellFormedLayout(f.layouts[tag])
  }

  /** A well-formed table of a journey family: its header tag has a layout and every stop layout a location. */
  predicate JourneyFormat(f: Format) {
    && WellFormed(f)
    && f.family != StopLocations
    && HeaderTag(f.family) in f.layouts
    && forall tag | tag in f.layouts && tag != HeaderTag(f.family) :: "location" in f.layouts[tag]
  }

  /** The tables of the three families, as the source writes them. */
  const BusCoachFormat := Format(BusCoach, map["QS" := QS, "QO" := QO, "QI" := QI, "QT" := QT])
  const ScotRailFormat := Format(ScotRail, map["BS" := BS, "LO" := LO, "LI" := LI, "LT" := LT])
  const StopLocationFormat := Format(StopLocations, map["QL" := QL, "QB" := QB])

  const QS: Layout := map[
    "record_identity" := FieldSpec(2, 1),
    "transaction_type" := FieldSpec(1, 3),
    "operator" := FieldSpec(4, 4),
    "unique_journey_identifier" := FieldSpec(6, 8),
    "first_date_of_operation" := FieldSpec(8, 14),
    "last_date_of_operation" := FieldSpec(8, 22),
    "operates_on_mondays" := FieldSpec(1, 30),
    "operates_on_tuesdays" := FieldSpec(1, 31),
    "operates_on_wednesdays" := FieldSpec(1, 32),
    "operates_on_thursdays" := FieldSpec(1, 33),
    "operates_on_fridays" := FieldSpec(1, 34),
    "operates_on_saturdays" := FieldSpec(1, 35),
    "operates_on_sundays" := FieldSpec(1, 36),
    "school_term_time" := FieldSpec(1, 37),
    "bank_holidays" := FieldSpec(1, 38),
    "route_number_(identifier)" := FieldSpec(4, 39),
    "running_board" := FieldSpec(6, 43),
    "vehicle_type" := FieldSpec(8, 49),
    "registration_number" := FieldSpec(8, 57),
    "route_direction" := FieldSpec(1, 65),
    "unique_id" := FieldSpec(13, 1)]

  const QO: Layout := map[
    "record_identity" := FieldSpec(2, 1),
    "location" := FieldSpec(12, 3),
    "published_departure_time" := FieldSpec(4, 15),
    "bay_number" := FieldSpec(3, 19),
    "timing_point_indicator" := FieldSpec(2, 22),
    "fare_stage_indicator" := FieldSpec(2, 24)]

  const QI: Layout := map[
    "record_identity" := FieldSpec(2, 1),
    "location" := FieldSpec(12, 3),
    "published_arrival_time" := FieldSpec(4, 15),
    "published_departure_time" := FieldSpec(4, 19),
    "activity_flag" := FieldSpec(1, 23),
    "bay_number" := FieldSpec(3, 24),
    "timing_point_indicator" := FieldSpec(2, 27),
    "fare_stage_indicator" := FieldSpec(2, 29)]

  const QT: Layout := map[
    "record_identity" := FieldSpec(2, 1),
    "location" := FieldSpec(12, 3),
    "published_arrival_time" := FieldSpec(4, 15),
    "bay_number" := FieldSpec(3, 19),
    "timing_point_indicator" := FieldSpec(2, 22),
    "fare_stage_indicator" := FieldSpec(2, 24)]

  const BS: Layout := map[
    "record_identity" := FieldSpec(2, 1),
    "transaction_type" := FieldSpec(1, 3),
    "train_uid" := FieldSpec(6, 4),
    "date_runs_from" := FieldSpec(6, 10),
    "date_runs_to" := FieldSpec(6, 16),
    "days_run" := FieldSpec(7, 22),
    "bank_holiday_running" := FieldSpec(1, 29),
    "train_status" := FieldSpec(1, 30),
    "train_category" := FieldSpec(2, 31),
    "train_identity" := FieldSpec(4, 33),
    "headcode" := FieldSpec(4, 37),
    "course_indicator" := FieldSpec(1, 41),
    "profit_centre_code" := FieldSpec(8, 42),
    "business_sector" := FieldSpec(1, 50),
    "power_type" := FieldSpec(3, 51),
    "timing_load" := FieldSpec(4, 54),
    "speed" := FieldSpec(3, 58),
    "operating_chars" := FieldSpec(6, 61),
    "train_class" := FieldSpec(1, 67),
    "sleepers" := FieldSpec(1, 68),
    "reservations" := FieldSpec(1, 69),
    "connect_indicator" := FieldSpec(1, 70),
    "catering_code" := FieldSpec(4, 71),
    "service_branding" := FieldSpec(4, 75),
    "spare" := FieldSpec(1, 79),
    "stp_indicator" := FieldSpec(1, 80)]

  const LO: Layout := map[
    "record_identity" := FieldSpec(2, 1),
    "location" := FieldSpec(8, 3),
    "scheduled_departure_time" := FieldSpec(5, 11),
    "public_departure_time" := FieldSpec(4, 16),
    "platform" := FieldSpec(3, 20),
    "line" := FieldSpec(3, 23),
    "engineering_allowance" := FieldSpec(2, 26),
    "pathing_allowance" := FieldSpec(2, 28),
    "activity" := FieldSpec(12, 30),
    "performance_allowance" := FieldSpec(2, 42),
    "spare" := FieldSpec(37, 44)]

  const LI: Layout := map[
    "record_identity" := FieldSpec(2, 1),
    "location" := FieldSpec(8, 3),
    "scheduled_arrival_time" := FieldSpec(5, 11),
    "scheduled_departure_time" := FieldSpec(5, 16),
    "scheduled_pass" := FieldSpec(5, 21),
    "public_arrival_time" := FieldSpec(4, 26),
    "public_departure_time" := FieldSpec(4, 30),
    "platform" := FieldSpec(4, 34),
    "line" := FieldSpec(3, 37),
    "path" := FieldSpec(3, 40),
    "activity" := FieldSpec(12, 43),
    "engineering_allowance" := FieldSpec(2, 55),
    "pathing_allowance" := FieldSpec(2, 57),
    "performance_allowance" := FieldSpec(2, 59),
    "spare" := FieldSpec(20, 61)]

  const LT: Layout := map[
    "record_identity" := FieldSpec(2, 1),
    "location" := FieldSpec(8, 3),
    "scheduled_arrival_time" := FieldSpec(5, 11),
    "public_arrival_time" := FieldSpec(4, 16),
    "platform" := FieldSpec(3, 20),
    "path" := FieldSpec(3, 23),
    "activity" := FieldSpec(12, 26),
    "spare" := FieldSpec(43, 80)]

  const QL: Layout := map[
    "record_identity" := FieldSpec(2, 1),
    "transaction_type" := FieldSpec(1, 3),
    "operator" := FieldSpec(12, 4),
    "full_location" := FieldSpec(48, 16),
    "gazetteer_code" := FieldSpec(1, 64),
    "point_type" := FieldSpec(1, 65),
    "national_gazetteer_ID" := FieldSpec(8, 66)]

  const QB: Layout := map[
    "record_identity" := FieldSpec(2, 1),
    "transaction_type" := FieldSpec(1, 3),
    "location" := FieldSpec(12, 4),
    "grid_reference_easting" := FieldSpec(8, 16),
    "grid_reference_northing" := FieldSpec(8, 24),
    "distric_name" := FieldSpec(24, 32),
    "town_name" := FieldSpec(24, 56)]

  lemma QSIsWellFormed()
    ensures WellFormedLayout(QS)
  {
  }

  lemma QOIsWellFormed()
    ensures WellFormedLayout(QO) && "location" in QO
  {
  }

  lemma QIIsWellFormed()
    ensures WellFormedLayout(QI) && "location" in QI
  {
  }

  lemma QTIsWellFormed()
    ensures WellFormedLayout(QT) && "location" in QT
  {
  }

  lemma BSIsWellFormed()
    ensures WellFormedLayout(BS)
  {
  }

  lemma LOIsWellFormed()
    ensures WellFormedLayout(LO) && "location" in LO
  {
  }

  lemma LIIsWellFormed()
    ensures WellFormedLayout(LI) && "location" in LI
  {
  }

  lemma LTIsWellFormed()
    ensures WellFormedLayout(LT) && "location" in LT
  {
  }

  lemma QLIsWellFormed()
    ensures WellFormedLayout(QL)
  {
  }

  lemma QBIsWellFormed()
    ensures WellFormedLayout(QB) && "location" in QB
  {
  }

  /** A journey table made of a header layout and three stop layouts, each well formed, each stop with a location. */
  lemma FourLayouts(family: Family, header: Layout, origin: Layout, intermediate: Layout, terminus: Layout,
                    o: string, i: string, t: string)
    requires family != StopLocations
    requires WellFormedLayout(header) && WellFormedLayout(origin) && WellFormedLayout(intermediate)
    requires WellFormedLayout(terminus)
    requires "location" in origin && "location" in intermediate && "location" in terminus
    ensures JourneyFormat(Format(family, map[HeaderTag(family) := header, o := origin, i := intermediate, t := terminus]))
  {
  }

  lemma BusCoachFormatIsJourneyFormat()
    ensures JourneyFormat(BusCoachFormat)
  {
    QSIsWellFormed();
    QOIsWellFormed();
    QIIsWellFormed();
    QTIsWellFormed();
    FourLayouts(BusCoach, QS, QO, QI, QT, "QO", "QI", "QT");
  }

  lemma ScotRailFormatIsJourneyFormat()
    ensures JourneyFormat(ScotRailFormat)
  {
    BSIsWellFormed();
    LOIsWellFormed();
    LIIsWellFormed();
    LTIsWellFormed();
    FourLayouts(ScotRail, BS, LO, LI, LT, "LO", "LI", "LT");
  }

  lemma StopLocationFormatIsWellFormed()
    ensures WellFormed(StopLocationFormat)
  {
    QLIsWellFormed();
    QBIsWellFormed();
  }

  /** Every approved tag has a layout, so a filtered file never reaches the unknown-record abort. */
  lemma ApprovedTagsHaveLayouts(tag: string)
    ensures tag in ApprovedTags(BusCoach) ==> tag in BusCoachFormat.layouts
    ensures tag in ApprovedTags(ScotRail) ==> tag in ScotRailFormat.layouts
    ensures tag in ApprovedTags(StopLocations) ==> tag in StopLocationFormat.layouts
  {
  }
}
