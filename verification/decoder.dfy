/**
 * The record decoder shared by the bus/coach converter, the rail converter and the stop-location extractor:
 * the tag filter applied while reading a file, and one generic interpreter of the layouts in `Layouts`.
 */
module Decoder {
  import opened Wrappers
  import opened Text
  import opened Clock
  import opened Records
  import opened Layouts

  /** The record-type tag, `line[0:2]` (shorter when the line is). */
  function Tag(line: string): string {
    Slice(line, 0, 2)
  }

  predicate IsApproved(family: Family, line: string) {
    Tag(line) in ApprovedTags(family)
  }

  /** The lines of a file whose tag is approved, in file order. */
  function KeepApproved(family: Family, lines: seq<string>): (r: seq<string>)
    ensures |r| <= |lines|
    ensures forall k :: 0 <= k < |r| ==> IsApproved(family, r[k])
  {
    if lines == [] then []
    else
      var last := lines[|lines| - 1];
      KeepApproved(family, lines[..|lines| - 1]) + (if IsApproved(family, last) then [last] else [])
  }

  /** No approved line is lost, and every kept line comes from the input. */
  lemma {:induction false} KeepApprovedExactly(family: Family, lines: seq<string>, l: string)
    ensures l in KeepApproved(family, lines) <==> l in lines && IsApproved(family, l)
    decreases |lines|
  {
    if lines != [] {
      var init := lines[..|lines| - 1];
      KeepApprovedExactly(family, init, l);
      assert lines == init + [lines[|lines| - 1]];
    }
  }

  /** Filtering distributes over concatenation, so the kept lines keep their relative order. */
  lemma {:induction false} KeepApprovedAppend(family: Family, a: seq<string>, b: seq<string>)
    ensures KeepApproved(family, a + b) == KeepApproved(family, a) + KeepApproved(family, b)
    decreases |b|
  {
    if b == [] {
      assert a + b == a;
    } else {
      var b' := b[..|b| - 1];
      assert (a + b)[..|a + b| - 1] == a + b';
      assert (a + b)[|a + b| - 1] == b[|b| - 1];
      KeepApprovedAppend(family, a, b');
    }
  }

  /** A list whose lines are all approved is left as it is. */
  lemma {:induction false} KeepApprovedOfApproved(family: Family, lines: seq<string>)
    requires forall k :: 0 <= k < |lines| ==> IsApproved(family, lines[k])
    ensures KeepApproved(family, lines) == lines
    decreases |lines|
  {
    if lines != [] {
      var init := lines[..|lines| - 1];
      assert forall k :: 0 <= k < |init| ==> init[k] == lines[k];
      KeepApprovedOfApproved(family, init);
      assert IsApproved(family, lines[|lines| - 1]);
      assert init + [lines[|lines| - 1]] == lines;
    }
  }

  /** Filtering an already filtered list changes nothing. */
  lemma KeepApprovedIdempotent(family: Family, lines: seq<string>)
    ensures KeepApproved(family, KeepApproved(family, lines)) == KeepApproved(family, lines)
  {
    var r := KeepApproved(family, lines);
    assert forall k :: 0 <= k < |r| ==> r[k] in r;
    KeepApprovedOfApproved(family, r);
  }

  /** extract_raw_timetable / extract_raw_scotrail_timetable / extract_raw_stop_location. */
  method ExtractRawTimetable(family: Family, lines: seq<string>) returns (raw: seq<string>)
    ensures raw == KeepApproved(family, lines)
  {
    raw := [];
    for i := 0 to |lines|
      invariant raw == KeepApproved(family, lines[..i])
    {
      var row := lines[i];
      assert lines[..i + 1][..i] == lines[..i];
      if Slice(row, 0, 2) in ApprovedTags(family) {
        raw := raw + [row];
      }
    }
    assert lines[..|lines|] == lines;
  }

  /** The trimmed text of one field: `line[start-1 : start-1+length].strip()`. */
  function FieldText(line: string, f: FieldSpec): string {
    Trim(Slice(line, f.start - 1, f.start - 1 + f.length))
  }

  /** Whether a field of a record with this tag is converted to a time of day. */
  predicate IsTimeField(family: Family, tag: string, key: string) {
    match family
    case BusCoach => tag != "QS" && IsInfix("time", key)
    case ScotRail =>
      tag != "BS"
      && (IsInfix("time", key) || IsInfix("public_arrival", key) || IsInfix("public_departure", key)
          || IsInfix("scheduled_pass", key))
    case StopLocations => false
  }

  /**
   * The value stored for one field, None when the line must be rejected. Bus/coach times are parsed strictly
   * from the whole trimmed text and a failure is fatal; rail times are parsed from the first four characters
   * and a failure keeps the text.
   */
  function Coerce(family: Family, tag: string, key: string, text: string): (r: Option<Value>)
    ensures r.None? ==> family == BusCoach && IsTimeField(family, tag, key)
    ensures r.Some? ==> r.value == Text(text) || (r.value.Time? && IsTimeField(family, tag, key))
  {
    if !IsTimeField(family, tag, key) then Some(Text(text))
    else if family == BusCoach then
      match ParseHHMM(text)
      case Some(m) => Some(Time(m))
      case None => None
    else
      match ParseHHMM(Slice(text, 0, 4))
      case Some(m) => Some(Time(m))
      case None => Some(Text(text))
  }

  function FieldValue(family: Family, tag: string, key: string, text: string): Value {
    match Coerce(family, tag, key, text)
    case Some(v) => v
    case None => Null
  }

  /** The trimmed text of every field of a layout. */
  function FieldTexts(layout: Layout, line: string): (texts: map<string, string>)
    ensures texts.Keys == layout.Keys
  {
    map k | k in layout :: FieldText(line, layout[k])
  }

  predicate AllFieldsParse(family: Family, tag: string, texts: map<string, string>) {
    forall k :: k in texts ==> Coerce(family, tag, k, texts[k]).Some?
  }

  function Fields(family: Family, tag: string, texts: map<string, string>): Record {
    map k | k in texts :: FieldValue(family, tag, k, texts[k])
  }

  /** Whether a tag is the journey header of its family, which carries a synthesised `unique_identifier`. */
  predicate HasIdentifier(family: Family, tag: string) {
    family != StopLocations && tag == HeaderTag(family)
  }

  /** The rail join key: train_uid, train_status, train_category, train_identity and train_class joined by "_". */
  function RailIdentifier(d: Record): string {
    Str(Get(d, "train_uid")) + "_" + Str(Get(d, "train_status")) + "_" + Str(Get(d, "train_category"))
    + "_" + Str(Get(d, "train_identity")) + "_" + Str(Get(d, "train_class"))
  }

  /** The bus join key: operator directly followed by unique_journey_identifier. */
  function BusIdentifier(d: Record): string {
    Str(Get(d, "operator")) + Str(Get(d, "unique_journey_identifier"))
  }

  function Identifier(family: Family, d: Record): string {
    if family == BusCoach then BusIdentifier(d) else RailIdentifier(d)
  }

  function IdentifierKeys(family: Family, tag: string): set<string> {
    if HasIdentifier(family, tag) then {"unique_identifier"} else {}
  }

  /**
   * One line decoded from the trimmed texts of its fields: every field is its text, possibly converted to
   * a time, nothing else is present except the header's `unique_identifier`, and the only failure is a
   * rejected time.
   */
  function DecodeTexts(family: Family, tag: string, texts: map<string, string>, line: string): (r: Result<Record, Error>)
    requires "unique_identifier" !in texts
    ensures r.Success? <==> AllFieldsParse(family, tag, texts)
    ensures r.Failure? ==> r.error == MalformedTime(line)
    ensures r.Success? ==> r.value.Keys == texts.Keys + IdentifierKeys(family, tag)
    ensures r.Success? ==> forall k :: k in texts ==> r.value[k] == FieldValue(family, tag, k, texts[k])
  {
    if !AllFieldsParse(family, tag, texts) then Failure(MalformedTime(line))
    else
      var d := Fields(family, tag, texts);
      if HasIdentifier(family, tag) then Success(d["unique_identifier" := Text(Identifier(family, d))])
      else Success(d)
  }

  /** get_journey_data / get_location_data as a function: an unknown tag aborts the run. */
  function Decode(f: Format, line: string): (r: Result<Record, Error>)
    requires WellFormed(f)
    ensures Tag(line) !in f.layouts ==> r == Failure(UnknownRecord(line))
    ensures r.Failure? ==> r.error == UnknownRecord(line) || r.error == MalformedTime(line)
    ensures r.Success? ==>
      Tag(line) in f.layouts && r.value.Keys == f.layouts[Tag(line)].Keys + IdentifierKeys(f.family, Tag(line))
  {
    var tag := Tag(line);
    if tag !in f.layouts then Failure(UnknownRecord(line))
    else DecodeTexts(f.family, tag, FieldTexts(f.layouts[tag], line), line)
  }

  /** Setting `unique_identifier` does not change the fields the identifier is made of. */
  lemma IdentifierIgnoresItself(family: Family, d: Record, v: Value)
    ensures Identifier(family, d["unique_identifier" := v]) == Identifier(family, d)
  {
    var e := d["unique_identifier" := v];
    assert Get(e, "operator") == Get(d, "operator");
    assert Get(e, "unique_journey_identifier") == Get(d, "unique_journey_identifier");
    assert Get(e, "train_uid") == Get(d, "train_uid");
    assert Get(e, "train_status") == Get(d, "train_status");
    assert Get(e, "train_category") == Get(d, "train_category");
    assert Get(e, "train_identity") == Get(d, "train_identity");
    assert Get(e, "train_class") == Get(d, "train_class");
  }

  /** A decoded journey header carries the identifier made from its own fields. */
  lemma DecodedIdentifier(f: Format, line: string)
    requires WellFormed(f) && Decode(f, line).Success? && HasIdentifier(f.family, Tag(line))
    ensures var d := Decode(f, line).value;
      "unique_identifier" in d && d["unique_identifier"] == Text(Identifier(f.family, d))
  {
    var fields := Fields(f.family, Tag(line), FieldTexts(f.layouts[Tag(line)], line));
    IdentifierIgnoresItself(f.family, fields, Text(Identifier(f.family, fields)));
  }

  /** A decoded line has exactly its layout's fields (and the header's identifier), each read from its columns. */
  lemma DecodedField(f: Format, line: string, k: string)
    requires WellFormed(f) && Decode(f, line).Success?
    ensures Tag(line) in f.layouts
    ensures var layout := f.layouts[Tag(line)];
      && Decode(f, line).value.Keys == layout.Keys + IdentifierKeys(f.family, Tag(line))
      && (k in layout ==>
            var text := FieldText(line, layout[k]);
            && Coerce(f.family, Tag(line), k, text).Some?
            && Decode(f, line).value[k] == FieldValue(f.family, Tag(line), k, text)
            && (!IsTimeField(f.family, Tag(line), k) ==> Decode(f, line).value[k] == Text(text)))
  {
  }

  /**
   * Bus/coach stop records: a line is accepted exactly when every field whose name contains "time" holds
   * a four-digit HHMM time, and each such field then holds the time its text spells.
   */
  lemma BusTimesAreStrict(f: Format, line: string)
    requires WellFormed(f) && f.family == BusCoach
    requires Tag(line) in f.layouts && Tag(line) != "QS"
    ensures var layout := f.layouts[Tag(line)];
      Decode(f, line).Success?
      <==> forall k :: k in layout && IsInfix("time", k) ==> ParseHHMM(FieldText(line, layout[k])).Some?
    ensures var layout := f.layouts[Tag(line)];
      Decode(f, line).Success? ==>
        forall k :: k in layout && IsInfix("time", k) ==>
          Decode(f, line).value[k].Time? && FormatHHMM(Decode(f, line).value[k].minute) == FieldText(line, layout[k])
  {
    var tag := Tag(line);
    var layout := f.layouts[tag];
    var texts := FieldTexts(layout, line);
    forall k | k in layout && IsInfix("time", k)
      ensures Coerce(f.family, tag, k, texts[k]).Some? <==> ParseHHMM(FieldText(line, layout[k])).Some?
    {
    }
    if Decode(f, line).Success? {
      forall k | k in layout && IsInfix("time", k)
        ensures Decode(f, line).value[k].Time?
        ensures FormatHHMM(Decode(f, line).value[k].minute) == FieldText(line, layout[k])
      {
        FormatParse(FieldText(line, layout[k]));
      }
    }
  }

  /** A bus/coach journey header is never converted: every field keeps its trimmed text. */
  lemma BusHeaderIsText(f: Format, line: string, k: string)
    requires WellFormed(f) && f.family == BusCoach
    requires Tag(line) == "QS" && "QS" in f.layouts
    ensures Decode(f, line).Success?
    ensures k in f.layouts["QS"] ==> Decode(f, line).value[k] == Text(FieldText(line, f.layouts["QS"][k]))
  {
  }

  /**
   * Rail records are never rejected: a time-like field holds the time spelled by its first four
   * characters when they parse, and otherwise keeps its trimmed text.
   */
  lemma RailTimesAreLenient(f: Format, line: string, k: string)
    requires WellFormed(f) && f.family == ScotRail
    requires Tag(line) in f.layouts
    ensures Decode(f, line).Success?
    ensures k in f.layouts[Tag(line)] && IsTimeField(f.family, Tag(line), k) ==>
      var text := FieldText(line, f.layouts[Tag(line)][k]);
      Decode(f, line).value[k]
      == (match ParseHHMM(Slice(text, 0, 4)) case Some(m) => Time(m) case None => Text(text))
  {
    OnlyBusRejects(f, line);
  }

  /** Outside the bus/coach family no field conversion fails, so every line with a known tag decodes. */
  lemma OnlyBusRejects(f: Format, line: string)
    requires WellFormed(f) && f.family != BusCoach
    requires Tag(line) in f.layouts
    ensures Decode(f, line).Success?
  {
    var texts := FieldTexts(f.layouts[Tag(line)], line);
    forall k | k in texts
      ensures Coerce(f.family, Tag(line), k, texts[k]).Some?
    {
    }
  }

  /** Stop-location records are never rejected and every field keeps its trimmed text. */
  lemma LocationFieldsAreText(f: Format, line: string, k: string)
    requires WellFormed(f) && f.family == StopLocations
    requires Tag(line) in f.layouts
    ensures Decode(f, line).Success?
    ensures k in f.layouts[Tag(line)] ==> Decode(f, line).value[k] == Text(FieldText(line, f.layouts[Tag(line)][k]))
  {
    OnlyBusRejects(f, line);
  }

  /**
   * One step of the rail converter's chain of conversions inside one `try`: a text value is re-parsed from
   * its first four characters; a failed parse raises, and so does slicing a value that is already a time,
   * and a raise skips the remaining conversions of the field.
   */
  function RailStep(value: Value): (r: (Value, bool))
  {
    match value
    case Text(t) =>
      (match ParseHHMM(Slice(t, 0, 4))
       case Some(m) => (Time(m), false)
       case None => (value, true))
    case _ => (value, true)
  }

  /** The conversion of one field as get_journey_data writes it, branch for branch. */
  method ConvertField(family: Family, tag: string, key: string, text: string) returns (v: Option<Value>)
    ensures v == Coerce(family, tag, key, text)
  {
    v := Some(Text(text));
    if family == BusCoach {
      if tag != "QS" && IsInfix("time", key) {
        var t := ParseHHMM(text);
        if t.None? {
          return None;
        }
        v := Some(Time(t.value));
      }
    } else if family == ScotRail {
      if tag != "BS" {
        var value := Text(text);
        var raised := false;
        if IsInfix("time", key) {
          value, raised := RailStep(value).0, RailStep(value).1;
        }
        if !raised && IsInfix("public_arrival", key) {
          value, raised := RailStep(value).0, RailStep(value).1;
        }
        if !raised && IsInfix("public_departure", key) {
          value, raised := RailStep(value).0, RailStep(value).1;
        }
        if !raised && IsInfix("public_departure", key) {
          value, raised := RailStep(value).0, RailStep(value).1;
        }
        if !raised && IsInfix("scheduled_pass", key) {
          value, raised := RailStep(value).0, RailStep(value).1;
        }
        v := Some(value);
      }
    }
  }

  /** get_journey_data / get_location_data: looks up the layout of the line's tag, then fills the record. */
  method GetJourneyData(f: Format, line: string) returns (r: Result<Record, Error>)
    requires WellFormed(f)
    ensures r == Decode(f, line)
  {
    var tag := Slice(line, 0, 2);
    if tag !in f.layouts {
      return Failure(UnknownRecord(line));
    }
    r := FillRecord(f.family, tag, f.layouts[tag], line);
  }

  /**
   * get_journey_data after the layout lookup: the loop fills the record, then the bus header gets its
   * `unique_identifier`.
   */
  method FillRecord(family: Family, tag: string, layout: Layout, line: string) returns (r: Result<Record, Error>)
    requires WellFormedLayout(layout)
    ensures r == DecodeTexts(family, tag, FieldTexts(layout, line), line)
  {
    var parsed, d := FillFields(family, tag, layout, line);
    if !parsed {
      return Failure(MalformedTime(line));
    }
    FilledRecord(family, tag, layout, line, d);
    if family == BusCoach && tag == "QS" {
      d := d["unique_identifier" := Text(BusIdentifier(d))];
    }
    return Success(d);
  }

  /**
   * The loop of get_journey_data: the record starts with every layout key set to None and is filled one
   * key at a time, in any key order; the rail header recomputes its `unique_identifier` after each key.
   * `parsed` is false where the bus converter's strptime raises and the run stops.
   */
  method FillFields(family: Family, tag: string, layout: Layout, line: string) returns (parsed: bool, d: Record)
    requires WellFormedLayout(layout)
    ensures !parsed ==> DecodeTexts(family, tag, FieldTexts(layout, line), line) == Failure(MalformedTime(line))
    ensures parsed ==> forall k :: k in layout ==> Coerce(family, tag, k, FieldText(line, layout[k])).Some?
    ensures parsed ==> d == Stamped(family == ScotRail && tag == "BS", Partial(family, tag, layout, line, layout.Keys))
  {
    var railHeader := family == ScotRail && tag == "BS";
    d := map k | k in layout :: Null;
    var done: set<string> := {};
    PartialEmpty(family, tag, layout, line);
    while done != layout.Keys
      invariant done <= layout.Keys
      invariant forall k :: k in done ==> Coerce(family, tag, k, FieldText(line, layout[k])).Some?
      invariant d == Stamped(railHeader && done != {}, Partial(family, tag, layout, line, done))
      decreases |layout.Keys - done|
    {
      var key :| key in layout.Keys - done;
      var filled;
      filled, d := FillKey(family, tag, layout, line, done, key, railHeader, d);
      if !filled {
        RejectedField(family, tag, layout, line, key);
        return false, d;
      }
      done := done + {key};
    }
    assert "record_identity" in done;
    return true, d;
  }

  /**
   * One pass of the loop of get_journey_data: convert the field `key` and store it, recomputing the
   * rail header's identifier; `filled` is false where the conversion raises.
   */
  method FillKey(family: Family, tag: string, layout: Layout, line: string, ghost done: set<string>, key: string,
                 railHeader: bool, d: Record)
    returns (filled: bool, d': Record)
    requires key in layout && key != "unique_identifier"
    requires d == Stamped(railHeader && done != {}, Partial(family, tag, layout, line, done))
    ensures filled <==> Coerce(family, tag, key, FieldText(line, layout[key])).Some?
    ensures filled ==> d' == Stamped(railHeader, Partial(family, tag, layout, line, done + {key}))
  {
    var field := layout[key];
    var text := FieldText(line, field);
    var value := ConvertField(family, tag, key, text);
    if value.None? {
      return false, d;
    }
    FillStep(family, tag, layout, line, done, key, railHeader, d);
    d' := d[key := value.value];
    if railHeader {
      d' := d'["unique_identifier" := Text(RailIdentifier(d'))];
    }
    filled := true;
  }

  /** The record of the loop once the keys in `done` are filled: their values, and None for the others. */
  ghost function Partial(family: Family, tag: string, layout: Layout, line: string, done: set<string>): Record {
    map k | k in layout :: if k in done then FieldValue(family, tag, k, FieldText(line, layout[k])) else Null
  }

  /** A record with the rail identifier recomputed from its current fields, when `stamp` holds. */
  ghost function Stamped(stamp: bool, d: Record): Record {
    if stamp then d["unique_identifier" := Text(RailIdentifier(d))] else d
  }

  /** A field whose conversion fails rejects the whole line. */
  lemma RejectedField(family: Family, tag: string, layout: Layout, line: string, key: string)
    requires key in layout && Coerce(family, tag, key, FieldText(line, layout[key])).None?
    requires "unique_identifier" !in layout
    ensures DecodeTexts(family, tag, FieldTexts(layout, line), line) == Failure(MalformedTime(line))
  {
    assert FieldTexts(layout, line)[key] == FieldText(line, layout[key]);
  }

  /** One pass of the loop of get_journey_data keeps its record equal to the partial record of the filled keys. */
  lemma FillStep(family: Family, tag: string, layout: Layout, line: string, done: set<string>, key: string,
                 railHeader: bool, d: Record)
    requires key in layout && key != "unique_identifier"
    requires d == Stamped(railHeader && done != {}, Partial(family, tag, layout, line, done))
    ensures var d' := d[key := FieldValue(family, tag, key, FieldText(line, layout[key]))];
      (if railHeader then d'["unique_identifier" := Text(RailIdentifier(d'))] else d')
      == Stamped(railHeader, Partial(family, tag, layout, line, done + {key}))
  {
    var before := Partial(family, tag, layout, line, done);
    PartialStep(family, tag, layout, line, done, key);
    if railHeader {
      StampedStep(railHeader && done != {}, before, key, FieldValue(family, tag, key, FieldText(line, layout[key])));
    }
  }

  lemma PartialEmpty(family: Family, tag: string, layout: Layout, line: string)
    ensures Partial(family, tag, layout, line, {}) == map k | k in layout :: Null
  {
  }

  lemma PartialStep(family: Family, tag: string, layout: Layout, line: string, done: set<string>, key: string)
    requires key in layout
    ensures Partial(family, tag, layout, line, done + {key})
         == Partial(family, tag, layout, line, done)[key := FieldValue(family, tag, key, FieldText(line, layout[key]))]
  {
  }

  /** Recomputing the identifier after a field update gives the same record whether or not it was stamped before. */
  lemma StampedStep(stamped: bool, d: Record, key: string, v: Value)
    requires key != "unique_identifier"
    ensures Stamped(true, Stamped(stamped, d)[key := v]) == Stamped(true, d[key := v])
  {
    var e := d[key := v];
    if stamped {
      var s := Stamped(stamped, d)[key := v];
      assert s == e["unique_identifier" := Text(RailIdentifier(d))];
      IdentifierIgnoresItself(ScotRail, e, Text(RailIdentifier(d)));
      assert Identifier(ScotRail, e) == RailIdentifier(e);
    }
  }

  /** The record the loop of get_journey_data ends with is the decoded line, once the bus header is stamped. */
  lemma FilledRecord(family: Family, tag: string, layout: Layout, line: string, d: Record)
    requires forall k :: k in layout ==> Coerce(family, tag, k, FieldText(line, layout[k])).Some?
    requires d == Stamped(family == ScotRail && tag == "BS", Partial(family, tag, layout, line, layout.Keys))
    requires "unique_identifier" !in layout
    ensures family == BusCoach && tag == "QS" ==>
      DecodeTexts(family, tag, FieldTexts(layout, line), line) == Success(d["unique_identifier" := Text(BusIdentifier(d))])
    ensures !(family == BusCoach && tag == "QS") ==> DecodeTexts(family, tag, FieldTexts(layout, line), line) == Success(d)
  {
    PartialComplete(family, tag, layout, line);
    AllParsed(family, tag, layout, line);
  }

  lemma AllParsed(family: Family, tag: string, layout: Layout, line: string)
    requires forall k :: k in layout ==> Coerce(family, tag, k, FieldText(line, layout[k])).Some?
    ensures AllFieldsParse(family, tag, FieldTexts(layout, line))
  {
  }

  /** Once every key is filled, the loop's record is the decoded fields. */
  lemma PartialComplete(family: Family, tag: string, layout: Layout, line: string)
    ensures Partial(family, tag, layout, line, layout.Keys) == Fields(family, tag, FieldTexts(layout, line))
  {
  }

  /** Gathers decoded lines in order; the first failure aborts, as the first `sys.exit` would. */
  function Collect(rs: seq<Result<Record, Error>>): (r: Result<seq<Record>, Error>)
    ensures r.Success? <==> forall k :: 0 <= k < |rs| ==> rs[k].Success?
    ensures r.Success? ==> |r.value| == |rs| && forall k :: 0 <= k < |rs| ==> r.value[k] == rs[k].value
    ensures r.Failure? ==>
      exists k :: 0 <= k < |rs| && rs[k] == Failure(r.error) && forall j :: 0 <= j < k ==> rs[j].Success?
  {
    if rs == [] then Success([])
    else
      match rs[0]
      case Failure(e) => Failure(e)
      case Success(d) =>
        match Collect(rs[1..])
        case Failure(e) =>
          assert forall k :: 1 <= k < |rs| ==> rs[k] == rs[1..][k - 1];
          Failure(e)
        case Success(ds) =>
          assert forall k :: 1 <= k < |rs| ==> rs[k] == rs[1..][k - 1];
          Success([d] + ds)
  }
}
