/**
 * `validate_dataframe`: the schema and privacy gate in front of the flag
 * engine. All three checks always run and each contributes at most one
 * message, in a fixed order; the Timestamp column is parsed row by row.
 */
module Validation {
  import opened Wrappers
  import opened Text
  import opened Clock
  import opened Schemas
  import opened Timestamps

  const REQUIRED_COLS: seq<string> := ["Timestamp", "Operator_ID", "Location", "Device_ID", "Test_Type"]

  const PII_COLUMNS: set<string> := {"Name", "Result", "MRN", "DOB"}

  /**
   * An uploaded table: its column names in file order and, for every row,
   * the text (`str(x)`) of each of its cells by column name.
   */
  datatype RawFrame = RawFrame(columns: seq<string>, rows: seq<map<string, string>>)
  {
    /** Every row has a cell in every column. */
    ghost predicate Rectangular()
    {
      forall i, c :: 0 <= i < |rows| && c in columns ==> c in rows[i]
    }
  }

  datatype ValidationError =
    | MissingColumns(names: seq<string>)
    | PiiColumns(names: seq<string>)
    | UnparsedTimestamps

  /** The text each error contributes to the HTTP 400 detail. */
  function Message(e: ValidationError): string
  {
    match e
    case MissingColumns(names) => "Missing required columns: " + ListRepr(names)
    case PiiColumns(names) => "PII columns detected: " + ListRepr(names)
    case UnparsedTimestamps => "Failed to parse some timestamps"
  }

  /** `[c for c in required if c not in columns]`. */
  function Missing(required: seq<string>, columns: seq<string>): (r: seq<string>)
    ensures forall c :: c in r <==> c in required && c !in columns
  {
    if required == [] then []
    else (if required[0] in columns then [] else [required[0]]) + Missing(required[1..], columns)
  }

  /** `[c for c in columns if c in PII_COLUMNS]`. */
  function PiiFound(columns: seq<string>): (r: seq<string>)
    ensures forall c :: c in r <==> c in columns && c in PII_COLUMNS
  {
    if columns == [] then []
    else (if columns[0] in PII_COLUMNS then [columns[0]] else []) + PiiFound(columns[1..])
  }

  ghost predicate HasRequiredColumns(columns: seq<string>)
  {
    forall c :: c in REQUIRED_COLS ==> c in columns
  }

  lemma RequiredColumnsPresent(columns: seq<string>)
    requires HasRequiredColumns(columns)
    ensures "Timestamp" in columns && "Operator_ID" in columns && "Location" in columns
    ensures "Device_ID" in columns && "Test_Type" in columns
  {
    assert REQUIRED_COLS[0] in REQUIRED_COLS && REQUIRED_COLS[1] in REQUIRED_COLS;
    assert REQUIRED_COLS[2] in REQUIRED_COLS && REQUIRED_COLS[3] in REQUIRED_COLS;
    assert REQUIRED_COLS[4] in REQUIRED_COLS;
  }

  /** Some row's Timestamp cell parses under no format. */
  ghost predicate SomeTimestampUnparsed(df: RawFrame, iso: string -> Option<Instant>)
    requires df.Rectangular()
  {
    "Timestamp" in df.columns &&
    exists i :: 0 <= i < |df.rows| && ParsedTimestamp(df.rows[i]["Timestamp"], iso).None?
  }

  /** The messages `validate_dataframe` collects, in the order it collects them. */
  ghost function ValidationErrors(df: RawFrame, iso: string -> Option<Instant>): seq<ValidationError>
    requires df.Rectangular()
  {
    var missing := Missing(REQUIRED_COLS, df.columns);
    var pii := PiiFound(df.columns);
    (if missing != [] then [MissingColumns(missing)] else [])
      + (if pii != [] then [PiiColumns(pii)] else [])
      + (if SomeTimestampUnparsed(df, iso) then [UnparsedTimestamps] else [])
  }

  ghost predicate AllTimestampsParse(df: RawFrame, iso: string -> Option<Instant>)
    requires df.Rectangular() && HasRequiredColumns(df.columns)
  {
    RequiredColumnsPresent(df.columns);
    forall i :: 0 <= i < |df.rows| ==> ParsedTimestamp(df.rows[i]["Timestamp"], iso).Some?
  }

  /** A batch the service accepts: all required columns, no PII column, every timestamp readable. */
  ghost predicate Accepts(df: RawFrame, iso: string -> Option<Instant>)
    requires df.Rectangular()
  {
    && HasRequiredColumns(df.columns)
    && (forall c :: c in df.columns ==> c !in PII_COLUMNS)
    && AllTimestampsParse(df, iso)
  }

  /**
   * `validate_dataframe`. Besides the error list it yields the parsed
   * Timestamp column that the source writes back into the frame (`None`
   * when the frame has no such column and nothing is written).
   */
  method ValidateDataFrame(df: RawFrame, iso: string -> Option<Instant>)
    returns (errors: seq<ValidationError>, parsed: Option<seq<Option<Instant>>>)
    requires df.Rectangular()
    ensures errors == ValidationErrors(df, iso)
    ensures errors == [] <==> Accepts(df, iso)
    ensures parsed.Some? <==> "Timestamp" in df.columns
    ensures parsed.Some? ==>
              |parsed.value| == |df.rows| &&
              forall i :: 0 <= i < |df.rows| ==> parsed.value[i] == ParsedTimestamp(df.rows[i]["Timestamp"], iso)
  {
    errors := [];
    var missing := Missing(REQUIRED_COLS, df.columns);
    if missing != [] {
      errors := errors + [MissingColumns(missing)];
    }
    var pii := PiiFound(df.columns);
    if pii != [] {
      errors := errors + [PiiColumns(pii)];
    }
    ghost var schemaErrors := errors;
    assert schemaErrors == (if missing != [] then [MissingColumns(missing)] else []) + (if pii != [] then [PiiColumns(pii)] else []);
    parsed := None;
    if "Timestamp" in df.columns {
      var column := ParseColumn(df.rows, iso);
      if exists j :: 0 <= j < |column| && column[j].None? {
        errors := errors + [UnparsedTimestamps];
      }
      parsed := Some(column);
    }
    assert errors == schemaErrors + (if SomeTimestampUnparsed(df, iso) then [UnparsedTimestamps] else []);
    AcceptsIffNoErrors(df, iso);
  }

  /** `df["Timestamp"].apply(lambda x: parse_timestamp(str(x)))`. */
  method ParseColumn(rows: seq<map<string, string>>, iso: string -> Option<Instant>)
    returns (column: seq<Option<Instant>>)
    requires forall i :: 0 <= i < |rows| ==> "Timestamp" in rows[i]
    ensures |column| == |rows|
    ensures forall i :: 0 <= i < |rows| ==> column[i] == ParsedTimestamp(rows[i]["Timestamp"], iso)
  {
    column := [];
    for i := 0 to |rows|
      invariant |column| == i
      invariant forall j :: 0 <= j < i ==> column[j] == ParsedTimestamp(rows[j]["Timestamp"], iso)
    {
      var t := ParseTimestamp(rows[i]["Timestamp"], iso);
      column := column + [t];
    }
  }

  /** The error list is empty exactly for the batches the service accepts. */
  lemma AcceptsIffNoErrors(df: RawFrame, iso: string -> Option<Instant>)
    requires df.Rectangular()
    ensures ValidationErrors(df, iso) == [] <==> Accepts(df, iso)
  {
    var missing := Missing(REQUIRED_COLS, df.columns);
    assert missing != [] ==> missing[0] in missing;
    if !HasRequiredColumns(df.columns) {
      var c :| c in REQUIRED_COLS && c !in df.columns;
      assert c in missing;
    }
    var pii := PiiFound(df.columns);
    assert pii != [] ==> pii[0] in pii;
  }

  /** The events of an accepted frame, one per row, in file order. */
  ghost function NormalizedBatch(df: RawFrame, iso: string -> Option<Instant>): (batch: seq<Event>)
    requires df.Rectangular() && Accepts(df, iso)
    ensures |batch| == |df.rows|
  {
    RequiredColumnsPresent(df.columns);
    seq(|df.rows|, i requires 0 <= i < |df.rows| =>
      Event(ParsedTimestamp(df.rows[i]["Timestamp"], iso).value, df.rows[i]["Operator_ID"],
            df.rows[i]["Location"], df.rows[i]["Device_ID"], df.rows[i]["Test_Type"]))
  }

  /** The events `compute_flags` reads from a validated frame and its parsed Timestamp column. */
  function EventsOf(df: RawFrame, times: seq<Option<Instant>>): (batch: seq<Event>)
    requires df.Rectangular()
    requires HasRequiredColumns(df.columns)
    requires |times| == |df.rows| && forall i :: 0 <= i < |times| ==> times[i].Some?
    ensures |batch| == |df.rows|
    ensures forall i :: 0 <= i < |batch| ==> batch[i].timestamp == times[i].value
  {
    RequiredColumnsPresent(df.columns);
    seq(|df.rows|, i requires 0 <= i < |df.rows| =>
      Event(times[i].value, df.rows[i]["Operator_ID"], df.rows[i]["Location"],
            df.rows[i]["Device_ID"], df.rows[i]["Test_Type"]))
  }

  /** A frame with any personal-data column is refused, and the refusal names the column. */
  lemma PiiColumnRejected(df: RawFrame, iso: string -> Option<Instant>, column: string)
    requires df.Rectangular()
    requires column in df.columns && column in PII_COLUMNS
    ensures !Accepts(df, iso)
    ensures exists e :: e in ValidationErrors(df, iso) && e.PiiColumns? && column in e.names
  {
    var e := PiiColumns(PiiFound(df.columns));
    assert e in ValidationErrors(df, iso);
  }
}
