/**
 * The single result slot `LAST_PROCESSED` behind `/upload`, `/summary` and
 * `/export/csv`: a failed validation leaves it alone, a successful upload
 * overwrites all of it, and the two readers answer 404 until something has
 * been processed.
 */
module Upload {
  import opened Wrappers
  import opened Text
  import opened Clock
  import opened Schemas
  import opened FlagRules
  import opened FlagProperties
  import opened FlagEngine
  import opened Summary
  import opened SummaryProperties
  import Validation
  import Timestamps

  /** An `HTTPException`: its status code and `detail`. */
  datatype HttpError = HttpError(status: nat, detail: string)

  const BAD_REQUEST: nat := 400
  const NOT_FOUND: nat := 404
  const NOT_PROCESSED: string := "No file processed"

  /** The messages of `errors`, in order. */
  function Messages(errors: seq<Validation.ValidationError>): (ms: seq<string>)
    ensures |ms| == |errors|
    ensures forall i :: 0 <= i < |errors| ==> ms[i] == Validation.Message(errors[i])
  {
    if errors == [] then [] else [Validation.Message(errors[0])] + Messages(errors[1..])
  }

  /** The 400 response of a rejected upload: `"; ".join(errors)`. */
  function Rejection(errors: seq<Validation.ValidationError>): HttpError
  {
    HttpError(BAD_REQUEST, Join("; ", Messages(errors)))
  }

  /** The flagged frame `compute_flags` produces for an accepted upload. */
  ghost function ProcessedFrame(frame: Validation.RawFrame, iso: string -> Option<Instant>): seq<FlaggedEvent>
    requires frame.Rectangular() && Validation.Accepts(frame, iso)
  {
    FlagBatch(Validation.NormalizedBatch(frame, iso))
  }

  /** The parsed Timestamp column of an accepted frame yields exactly its events. */
  lemma AcceptedColumn(frame: Validation.RawFrame, iso: string -> Option<Instant>, times: seq<Option<Instant>>)
    requires frame.Rectangular() && Validation.Accepts(frame, iso)
    requires "Timestamp" in frame.columns && |times| == |frame.rows|
    requires forall i :: 0 <= i < |frame.rows| ==>
      times[i] == Timestamps.ParsedTimestamp(frame.rows[i]["Timestamp"], iso)
    ensures forall i :: 0 <= i < |times| ==> times[i].Some?
    ensures Validation.EventsOf(frame, times) == Validation.NormalizedBatch(frame, iso)
  {
    Validation.RequiredColumnsPresent(frame.columns);
    var a := Validation.EventsOf(frame, times);
    var b := Validation.NormalizedBatch(frame, iso);
    assert forall i :: 0 <= i < |a| ==> a[i] == b[i];
  }

  /**
   * The first half of `upload_file` after reading: validate the frame and,
   * when it is accepted, flag its events.
   */
  method ValidateAndFlag(frame: Validation.RawFrame, iso: string -> Option<Instant>)
    returns (r: Result<seq<FlaggedEvent>, HttpError>)
    requires frame.Rectangular()
    ensures r.Failure? <==> !Validation.Accepts(frame, iso)
    ensures r.Failure? ==> r.error == Rejection(Validation.ValidationErrors(frame, iso))
    ensures r.Success? ==> r.value == ProcessedFrame(frame, iso)
  {
    var errors, parsed := Validation.ValidateDataFrame(frame, iso);
    if errors != [] {
      return Failure(Rejection(errors));
    }
    AcceptedColumn(frame, iso, parsed.value);
    var batch := Validation.EventsOf(frame, parsed.value);
    var rows := ComputeFlags(batch);
    return Success(rows);
  }

  class ResultStore {
    var df: Option<seq<FlaggedEvent>>
    var timestamp: Option<Instant>
    var analysis: Option<UsageSummary>

    /** Either nothing has been processed, or all three entries describe the same batch. */
    ghost predicate Valid()
      reads this
    {
      && (df.None? <==> timestamp.None?)
      && (df.None? <==> analysis.None?)
      && (df.Some? ==> analysis.value == SummaryOf(df.value))
    }

    /** The slot at start-up: every entry None. */
    constructor()
      ensures Valid()
      ensures df.None? && timestamp.None? && analysis.None?
    {
      df := None;
      timestamp := None;
      analysis := None;
    }

    /**
     * `upload_file` once the file has been read into `frame`; `now` stands
     * for `datetime.utcnow()` and `iso` for `datetime.fromisoformat`.
     */
    method UploadFile(frame: Validation.RawFrame, now: Instant, iso: string -> Option<Instant>)
      returns (r: Result<UsageSummary, HttpError>)
      requires frame.Rectangular()
      requires Valid()
      modifies this
      ensures Valid()
      ensures r.Failure? <==> !Validation.Accepts(frame, iso)
      ensures r.Failure? ==>
                r.error == Rejection(Validation.ValidationErrors(frame, iso)) &&
                df == old(df) && timestamp == old(timestamp) && analysis == old(analysis)
      ensures r.Success? ==>
                && df == Some(ProcessedFrame(frame, iso))
                && timestamp == Some(now)
                && analysis == Some(r.value)
    {
      var flagged := ValidateAndFlag(frame, iso);
      if flagged.Failure? {
        return Failure(flagged.error);
      }
      var summary := BuildSummary(flagged.value);
      Store(flagged.value, now, summary);
      return Success(summary);
    }

    /** The success path of `upload_file`: every entry of the slot now describes the new batch. */
    method Store(rows: seq<FlaggedEvent>, now: Instant, summary: UsageSummary)
      requires summary == SummaryOf(rows)
      modifies this
      ensures Valid()
      ensures df == Some(rows) && timestamp == Some(now) && analysis == Some(summary)
    {
      df, timestamp, analysis := Some(rows), Some(now), Some(summary);
    }

    /** `get_summary`: the stored analysis, or 404 when nothing has been processed. */
    method GetSummary() returns (r: Result<UsageSummary, HttpError>)
      requires Valid()
      ensures r.Failure? <==> df.None?
      ensures r.Failure? ==> r.error == HttpError(NOT_FOUND, NOT_PROCESSED)
      ensures r.Success? ==> df.Some? && r.value == SummaryOf(df.value)
    {
      if analysis.None? {
        return Failure(HttpError(NOT_FOUND, NOT_PROCESSED));
      }
      return Success(analysis.value);
    }

    /** `export_csv`: the FLAGGED rows of the stored frame, or 404 when nothing has been processed. */
    method ExportCsv() returns (r: Result<seq<FlaggedEvent>, HttpError>)
      requires Valid()
      ensures r.Failure? <==> df.None?
      ensures r.Failure? ==> r.error == HttpError(NOT_FOUND, NOT_PROCESSED)
      ensures r.Success? ==> df.Some? && r.value == FlaggedRows(df.value)
      ensures r.Success? ==> forall e :: e in r.value <==> e in df.value && e.flagged
    {
      if df.None? {
        return Failure(HttpError(NOT_FOUND, NOT_PROCESSED));
      }
      return Success(FlaggedRows(df.value));
    }
  }

  /**
   * A fresh service answers 404 to `/summary`; after an accepted upload it
   * answers with exactly the upload's response, and the export holds the
   * flagged rows of that batch.
   */
  method UploadThenRead(frame: Validation.RawFrame, now: Instant, iso: string -> Option<Instant>)
    returns (before: Result<UsageSummary, HttpError>, uploaded: Result<UsageSummary, HttpError>,
             after: Result<UsageSummary, HttpError>, exported: Result<seq<FlaggedEvent>, HttpError>)
    requires frame.Rectangular()
    ensures before == Failure(HttpError(NOT_FOUND, NOT_PROCESSED))
    ensures uploaded.Success? <==> Validation.Accepts(frame, iso)
    ensures uploaded.Success? ==> after == uploaded
    ensures uploaded.Failure? ==> after == before && exported == Failure(HttpError(NOT_FOUND, NOT_PROCESSED))
    ensures uploaded.Success? ==> exported.Success? && forall e :: e in exported.value <==> e in ProcessedFrame(frame, iso) && e.flagged
  {
    var store := new ResultStore();
    before := store.GetSummary();
    uploaded := store.UploadFile(frame, now, iso);
    after := store.GetSummary();
    exported := store.ExportCsv();
  }

  /** The preview of an upload's response lists its flagged events in Event_ID order. */
  lemma PreviewInEventOrder(batch: seq<Event>)
    ensures IdsAscending(SummaryOf(FlagBatch(batch)).flaggedEventsPreview)
  {
    FlagBatchShape(batch);
    PreviewFacts(FlagBatch(batch));
  }
}
