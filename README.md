# POCTIFY flag engine and upload summary, in Dafny

POCTIFY reads an export of point-of-care-testing device usage, one row per test
(Timestamp, Operator_ID, Location, Device_ID, Test_Type). It flags patterns that
suggest a shared or misused operator barcode, and it answers the upload with
several aggregates: per-operator and per-device summaries, global flag counts,
an operator × hour-of-day heatmap, and short insight messages.

This project models that core and proves properties of it:

- **Timestamps** (`utils/flags.py` `parse_timestamp`): `TIME_FORMATS` are tried
  in order, `%d/%m/%Y %H:%M` and then `%Y-%m-%d %H:%M`, each read field by
  field following CPython's `_strptime` patterns. The format's space takes any
  run of Unicode whitespace, as `\s+` does; fields take ASCII digits only (see
  "Left out"). If both fail, the ISO-8601 reader is used. Instants are integer
  microseconds of naive datetimes.
- **Validation** (`validate_dataframe`): the three checks always run in order.
  They report missing required columns, personal-data columns (Name, Result,
  MRN, DOB) and unreadable timestamps, and each contributes at most one
  message. The parsed Timestamp column is returned.
- **Flag engine** (`compute_flags`):
  - A stable sort on (Operator_ID, Timestamp) with Event_ID 1..N.
  - RAPID and LOC_CONFLICT from the group-wise previous row.
  - DEVICE_HOP and SHIFT_VIOL as unions over trailing windows, computed by
    nested loops that scatter-write into boolean arrays, as the source does.
  - LOAD_DEV and COLOC from (key, hour-floor) buckets.
  - FLAGGED as the OR of the six flags.
  - Each flag column is stated declaratively in `FlagRules`, and the
    imperative `ComputeFlags` is proved to produce exactly that table. For
    RAPID, LOC_CONFLICT, LOAD_DEV and COLOC this holds by construction,
    because `ComputeFlags` evaluates those `FlagRules` predicates row by row.
    The proof work is in the DEVICE_HOP and SHIFT_VIOL scatter loops.
- **Heatmap** (`build_hourly_matrix`): operator → hour-of-day label → count,
  zero-filled over every hour that occurs in the batch.
- **Summary** (`build_summary`): the preview of at most 100 flagged rows,
  operator summaries with the suspicion score, device summaries, FlagStats,
  the heatmap and the insights dict. The loops are methods proved equal to
  the specification function `SummaryOf`.
- **Result slot** (`LAST_PROCESSED`): a class `ResultStore` with the `df`,
  `timestamp` and `analysis` entries. The slot is changed by `upload_file` and
  read by `get_summary` and `export_csv`.

Constants are the source's:
- one minute (RAPID);
- five minutes (LOC_CONFLICT);
- ten minutes and three devices (DEVICE_HOP);
- 24 hours and 14 hours (SHIFT_VIOL);
- more than 20 tests per hour (LOAD_DEV);
- three operators (COLOC);
- a preview of 100 rows.

The modules are Wrappers, Text, Clock, Schemas, Timestamps, Validation,
Sorting, FlagRules, FlagProperties, FlagEngine, Groups, Heatmap, Summary,
SummaryProperties and Upload.

Three details of the code that the model keeps:

- The heatmap is zero-filled for every hour present anywhere in the batch,
  because of `unstack(fill_value=0)` (utils/flags.py:138).
- Insights are a separate dict keyed by operator (routes/upload.py:83,120),
  not a field of the operator summary.
- The parse error message is the fixed text "Failed to parse some
  timestamps" and does not count rows (utils/flags.py:53).

## Model

| member | source | states |
|---|---|---|
| Timestamps.ParseTimestamp | utils/flags.py:25-35 | Returns the reading of the first fixed format that parses the value, else the ISO fallback's answer (`None` when that fails too). |
| Timestamps.Strptime | utils/flags.py:29 | `datetime.strptime(value, fmt)`: the fields the format's pattern reads, fields it does not name defaulting to 1900-01-01 00:00, and `None` where the text does not match or the date does not exist. |
| Timestamps.SeparatorRun | utils/flags.py:29 | The space in a format accepts any non-empty run of Unicode whitespace (a no-break space included), and matching continues after the run. |
| Timestamps.FirstParseSkip | utils/flags.py:27-31 | Formats that all raise can be skipped: the result is decided by the remaining formats and the fallback. |
| Timestamps.StrptimeRoundTrip | utils/flags.py:19-29 | Every valid datetime rendered in either fixed format is parsed back by that format to the same instant. |
| Timestamps.ParseRendered | utils/flags.py:25-31 | A timestamp written in either fixed format is always accepted, without consulting the ISO fallback, and yields its own instant. |
| Clock.ToInstantFields | utils/flags.py:108 | A parsed datetime's instant is a whole minute; its hour of day is the datetime's hour; its hour floor is the datetime with the minutes cleared. |
| Validation.Missing | utils/flags.py:42 | Lists exactly the required columns that are absent. |
| Validation.PiiFound | utils/flags.py:46 | Lists exactly the frame's columns that are personal-data columns. |
| Validation.ValidateDataFrame | utils/flags.py:38-56 | Returns the three checks' errors in order. The list is empty iff the frame is accepted. The parsed Timestamp column is present iff the frame has one, and each entry is that row's `parse_timestamp` result. |
| Validation.ParseColumn | utils/flags.py:51 | Each entry of the parsed column is `parse_timestamp` of that row's Timestamp text. |
| Validation.AcceptsIffNoErrors | utils/flags.py:38-56 | No error is reported iff every required column is present, no PII column is present and every timestamp parses. |
| Validation.PiiColumnRejected | utils/flags.py:46-48 | A frame holding any PII column is refused, and the PII error names that column. |
| Validation.EventsOf | utils/flags.py:54 | One event per row, carrying the parsed timestamp written back into the Timestamp column. |
| Sorting.SortEvents | utils/flags.py:62 | The sorted batch has the same rows (as a multiset) and is ordered by (Operator_ID, Timestamp). |
| Sorting.Insert | utils/flags.py:62 | Inserting adds exactly one row to the multiset. |
| Sorting.InsertSorted | utils/flags.py:62 | Inserting into a sorted sequence keeps it sorted. |
| Sorting.SortStable | utils/flags.py:62 | Rows with equal (Operator_ID, Timestamp) keep their input order. |
| Sorting.KeyLeTotal | utils/flags.py:62 | Any two rows are comparable under the sort key. |
| Sorting.KeyLeTransitive | utils/flags.py:62 | The sort key order is transitive. |
| Sorting.OperatorRun | utils/flags.py:84 | In the sorted batch a maximal run of one operator holds exactly that operator's rows, so a `groupby` group is a contiguous run. |
| FlagRules.Prev | utils/flags.py:65-67 | The group-wise `shift()`: the row just before in sort order when it is the same operator's, and nothing otherwise. |
| FlagRules.RapidAt | utils/flags.py:69-74 | RAPID: there is a previous row and the gap to it is under one minute. A missing previous row compares false, as NaN does. |
| FlagRules.LocConflictAt | utils/flags.py:76-79 | LOC_CONFLICT: there is a previous row, its location differs, and the gap is at most five minutes. |
| FlagRules.DeviceHopAt | utils/flags.py:81-94 | DEVICE_HOP: some test of the same operator has a trailing ten-minute window that contains the row and holds at least three distinct devices. |
| FlagRules.ShiftViolAt | utils/flags.py:96-105 | SHIFT_VIOL: some test of the same operator has a trailing 24-hour window that contains the row and reaches back more than 14 hours. |
| FlagRules.LoadDevAt | utils/flags.py:107-113 | LOAD_DEV: the row's (operator, hour floor) bucket holds more than 20 tests. |
| FlagRules.ColocAt | utils/flags.py:115-119 | COLOC: the row's (device, hour floor) bucket has at least three distinct operators. |
| FlagRules.FlagBatch | utils/flags.py:59-130 | The frame `compute_flags` returns: the sorted batch numbered 1..N, with each row's six flags and FLAGGED as their OR. |
| FlagProperties.FlagBatchShape | utils/flags.py:59-64 | The flagged table holds exactly the input rows, sorted by (Operator_ID, Timestamp), with Event_ID i+1 at position i. |
| FlagProperties.SameOperatorOrdered | utils/flags.py:62 | Within one operator the sorted rows are in timestamp order. |
| FlagProperties.PrevIsLatestEarlier | utils/flags.py:65-67 | The group-wise shift gives nothing for the operator's earliest test. Otherwise it gives a test of the same operator no later than this one, and no other test of that operator falls strictly between them. |
| FlagProperties.FirstTestClean | utils/flags.py:69-79 | An operator's strictly earliest test is never RAPID or LOC_CONFLICT. |
| FlagProperties.RunStartClean | utils/flags.py:65-79 | The first row of each operator's run in sort order is neither RAPID nor LOC_CONFLICT. |
| FlagProperties.RapidIffPrevious | utils/flags.py:65-74 | RAPID holds iff the row just before in sort order is the same operator's and under a minute earlier, a repeat at the same instant included. |
| FlagProperties.RapidMeansCloseEarlier | utils/flags.py:69-74 | A row is RAPID iff some row of its operator earlier in sort order is under a minute before it. Any strictly earlier test under a minute before also makes it RAPID. |
| FlagProperties.RapidHasCloseEarlier | utils/flags.py:69-74 | A RAPID row directly follows a row of the same operator that is less than a minute earlier and never later. |
| FlagProperties.CloseEarlierMakesRapid | utils/flags.py:69-74 | A same-operator row that comes earlier in sort order, or is strictly earlier in time, and is under a minute before makes the later row RAPID. |
| FlagProperties.RepeatIsRapid | utils/flags.py:69-74 | Of two tests of one operator at the same instant, the one with the higher Event_ID is RAPID. |
| FlagProperties.LocConflictIffPrevious | utils/flags.py:65-79 | LOC_CONFLICT holds iff the preceding row is the same operator's, at another location, at most five minutes earlier; that row is the operator's latest test at or before this one. |
| FlagProperties.DeviceHopScenario | utils/flags.py:81-94 | Three tests of one operator on three devices inside an anchor's ten-minute window are all DEVICE_HOP. |
| FlagProperties.DeviceHopNeedsThreeDevices | utils/flags.py:81-94 | A DEVICE_HOP row's operator uses at least three distinct devices in the batch. |
| FlagProperties.ShiftWithinFourteenHours | utils/flags.py:96-105 | An operator whose tests all lie within 14 hours of each other has no SHIFT_VIOL row, so exactly 14 hours is not flagged. |
| FlagProperties.ShiftGapFlagsBoth | utils/flags.py:96-105 | Two tests of one operator more than 14 but at most 24 hours apart are both SHIFT_VIOL. |
| FlagProperties.ColocScenario | utils/flags.py:115-119 | A device used by three distinct operators within one hour-floor bucket marks every row of that bucket COLOC. |
| FlagProperties.BucketFlagsShared | utils/flags.py:107-119 | Rows in the same (operator, hour) bucket share LOAD_DEV, and rows in the same (device, hour) bucket share COLOC. |
| FlagProperties.BucketLoadOfSorted | utils/flags.py:107-113 | An (operator, hour) bucket's size does not depend on the row order, so the sort does not change LOAD_DEV. |
| FlagProperties.BucketLoadInsert | utils/flags.py:107-113 | Counting a bucket is unaffected by where one row is inserted. |
| FlagProperties.FlaggedIsAnyFlag | utils/flags.py:121-128 | FLAGGED holds iff at least one of the six flags holds. |
| FlagEngine.GroupEnd | utils/flags.py:84 | Finds the end of the current operator's run in the sorted batch. |
| FlagEngine.WindowMembers | utils/flags.py:88-92 | Selects exactly the group's rows inside the anchor's trailing window. |
| FlagEngine.DistinctDevices | utils/flags.py:93 | Counts the distinct Device_IDs of the selected rows (`nunique`). |
| FlagEngine.Earliest | utils/flags.py:104 | Returns the least timestamp of the selected rows, and it is one of them. |
| FlagEngine.MarkAll | utils/flags.py:94 | Sets the column to True at exactly the selected rows and leaves the rest unchanged. |
| FlagEngine.GroupWindow | utils/flags.py:84-92 | Selecting within the operator's run is the same as selecting same-operator rows across the whole batch. |
| FlagEngine.MarkHopWindow | utils/flags.py:87-94 | One anchor's step marks exactly its ten-minute window when that window holds at least three devices, and leaves every other entry alone. |
| FlagEngine.MarkShiftWindow | utils/flags.py:100-105 | One anchor's step marks exactly its 24-hour window when that window reaches back more than 14 hours, and leaves every other entry alone. |
| FlagEngine.DeviceHopColumn | utils/flags.py:81-94 | Each DEVICE_HOP entry is True iff some same-operator anchor's ten-minute window contains the row and holds at least three devices. |
| FlagEngine.ShiftViolColumn | utils/flags.py:96-105 | Each SHIFT_VIOL entry is True iff some same-operator anchor's 24-hour window contains the row and reaches back more than 14 hours. |
| FlagEngine.ComputeFlags | utils/flags.py:59-130 | Produces exactly the table whose flags are defined row by row in FlagRules. |
| Groups.Tally | routes/upload.py:85-90 | A boolean column's sum is at most the group size; the row count is the group size. |
| Groups.Group | routes/upload.py:84 | A `groupby` group holds exactly the rows with that key. |
| Groups.Keys | routes/upload.py:84 | The group keys are strictly ascending and are exactly the keys present. |
| Groups.SumTallyPartition | routes/upload.py:84-131 | Summing any count over all groups gives the count over the whole frame. |
| Groups.GroupNonEmpty | routes/upload.py:98 | A present key's group is non-empty, so `len(group)` is never zero. |
| Groups.KeySetBound | routes/upload.py:128 | A group has at most as many distinct operators as rows, and at least one when non-empty. |
| Heatmap.HourlyMatrix | utils/flags.py:133-143 | `build_hourly_matrix`: for each operator, for each hour-of-day label present in the batch, the number of that operator's tests in that hour. |
| Heatmap.MatrixShape | utils/flags.py:133-143 | One row per operator. Every row has the same keys: the hour-of-day labels that occur in the batch, each the decimal rendering of an hour in 0..23. |
| Heatmap.HourLabelIff | utils/flags.py:136-141 | A row's hour label equals `str(h)` iff its hour of day is h. |
| Heatmap.CellAbsent | utils/flags.py:138 | A cell for an hour absent from the batch is zero. |
| Heatmap.RowSumsToOperatorTests | utils/flags.py:133-143 | Each heatmap row sums to that operator's number of tests. |
| Heatmap.MatrixSumsToBatch | utils/flags.py:133-143 | All heatmap cells together sum to the number of rows. |
| Summary.FlaggedRows | routes/upload.py:63 | The filter keeps exactly the FLAGGED rows. |
| Summary.CollectPreview | routes/upload.py:62-80 | The preview loop yields the first hundred flagged rows. |
| Summary.OperatorSummaryFor | routes/upload.py:85-109 | An operator group's `OperatorSummary`: its size, its six flag counts, and their sum over the size as the score. |
| Summary.DeviceSummaryFor | routes/upload.py:123-131 | A device group's `DeviceSummary`: its size, its distinct operators and its COLOC count. |
| Summary.DeviceMessage | routes/upload.py:114-116 | The DEVICE_HOP insight text: the group's distinct device count and the whole minutes between its first and last test. |
| Summary.InsightFor | routes/upload.py:111-119 | An operator's messages: the device message when the group has a DEVICE_HOP row, then the shift message when it has a SHIFT_VIOL row. |
| Summary.Insights | routes/upload.py:150 | `insights or None`: the insights dict, or `None` when no operator qualifies. |
| Summary.SummaryOf | routes/upload.py:60-151 | The `UsageSummary` for a flagged frame: preview, operator and device summaries, FlagStats, heatmap and insights. |
| Summary.SummarizeOperator | routes/upload.py:84-110 | One operator group's `OperatorSummary`: the group's size, its six flag counts, and their sum over the size as the score. |
| Summary.CollectMessages | routes/upload.py:111-119 | An operator gets messages iff their group has a DEVICE_HOP or SHIFT_VIOL row. The messages are the device message, then the shift message. |
| Summary.OperatorStep | routes/upload.py:84-120 | Visiting one more operator group appends that group's summary. It adds the group's messages to the insights dict exactly when the group qualifies. |
| Summary.SummarizeOperators | routes/upload.py:82-120 | The operator loop yields the summaries in key order and exactly the insights dict. |
| Summary.SummarizeDevices | routes/upload.py:122-131 | The device loop yields one summary per device group in key order. |
| Summary.BuildSummary | routes/upload.py:60-151 | Produces `SummaryOf` the frame. |
| Summary.InsightsAfterAll | routes/upload.py:112-120 | Visiting every operator group builds exactly the insights dict. |
| SummaryProperties.PreviewFacts | routes/upload.py:62-80 | The preview holds only flagged rows of the frame and at most 100 of them. It holds every flagged row when there are no more than 100, and it keeps Event_ID order. |
| SummaryProperties.OperatorSummariesAscending | routes/upload.py:84 | Operator summaries are in strictly ascending Operator_ID order, so there is one per operator. |
| SummaryProperties.OperatorSummariesCover | routes/upload.py:84 | Every operator of the frame has a summary. |
| SummaryProperties.OperatorSummariesFromFrame | routes/upload.py:84 | Every summary belongs to an operator of the frame. |
| SummaryProperties.OperatorSummaryBounds | routes/upload.py:84-103 | `total_tests` is the group size (at least 1), each flag count is at most `total_tests`, and the score lies in [0, 6]. |
| SummaryProperties.OperatorScore | routes/upload.py:91-98 | The score is the sum of the six flag counts divided by `total_tests`, which is non-zero. |
| SummaryProperties.ScoreBounds | routes/upload.py:91-98 | A ratio of at most six flags per test lies in [0, 6], and multiplying back by the tests gives the flags. |
| SummaryProperties.OperatorSummariesPartition | routes/upload.py:84-140 | `total_tests` over all operators sums to N. Each flag's per-operator counts sum to the number of rows raising it, which is the FlagStats field. |
| SummaryProperties.StatsCount | routes/upload.py:133-140 | Each FlagStats field counts the rows raising its flag. |
| SummaryProperties.DeviceSummariesAscending | routes/upload.py:123 | Device summaries are in strictly ascending Device_ID order, so there is one per device. |
| SummaryProperties.DeviceSummariesCover | routes/upload.py:123 | There is a device summary for exactly the devices in the frame. |
| SummaryProperties.DeviceSummariesPartition | routes/upload.py:122-131 | Device `total_tests` sum to N. |
| SummaryProperties.DeviceSummaryBounds | routes/upload.py:122-131 | Each device summary counts its group: 1 ≤ `unique_users` ≤ `total_tests`, and `coloc_events` ≤ `total_tests`. |
| SummaryProperties.InsightKeys | routes/upload.py:112-120 | An operator has an insights entry iff their summary has `device_hop_count > 0` or `shift_viol_count > 0`. |
| SummaryProperties.InsightsNone | routes/upload.py:150 | `insights` is None iff no operator summary has a DEVICE_HOP or SHIFT_VIOL count. |
| SummaryProperties.InsightMessages | routes/upload.py:112-120 | An entry has one or two messages. The device message comes first iff there is a DEVICE_HOP row, and the fixed shift message comes last iff there is a SHIFT_VIOL row. |
| SummaryProperties.SpanMinutesBounds | routes/upload.py:115 | The device message's minutes are the whole minutes between the operator's earliest and latest test, truncated. |
| Upload.Messages | routes/upload.py:50 | One detail message per validation error, in order. |
| Upload.Rejection | routes/upload.py:49-50 | The 400 response of a rejected upload, its detail the error messages joined by `"; "`. |
| Upload.ValidateAndFlag | routes/upload.py:48-52 | Fails iff validation reports an error, and the 400 detail is the errors joined by `"; "`. Otherwise returns the flagged frame of the validated batch. |
| Upload.AcceptedColumn | utils/flags.py:50-54 | On an accepted frame every parsed timestamp is present, and the events built from the parsed column are the frame's events. |
| Upload.ResultStore.constructor | routes/upload.py:18-22 | The slot starts with all three entries empty. |
| Upload.ResultStore.UploadFile | routes/upload.py:48-58 | A rejected upload raises 400 and leaves `df`, `timestamp` and `analysis` unchanged. An accepted one overwrites `df` with the flagged frame, `timestamp` with the clock reading, and `analysis` with its summary, which is returned. |
| Upload.ResultStore.Store | routes/upload.py:53-57 | After the success path `df`, `timestamp` and `analysis` all hold the new batch, its clock reading and its summary, so the slot stays consistent. |
| Upload.ResultStore.GetSummary | routes/upload.py:192-197 | 404 "No file processed" iff nothing has been processed; otherwise the stored analysis. |
| Upload.ResultStore.ExportCsv | routes/upload.py:152-157 | 404 "No file processed" iff nothing has been processed; otherwise exactly the FLAGGED rows of the stored frame. |
| Upload.UploadThenRead | routes/upload.py:48-58 | A fresh service answers 404. After an accepted upload `/summary` returns exactly the upload's response and the export holds exactly its flagged rows; after a rejected one both still answer 404. |
| Upload.PreviewInEventOrder | routes/upload.py:62-80 | The preview in an upload's response lists flagged events in increasing Event_ID. |

## Left out

- Reading the upload is not modelled: the content-type and 20 MB size checks, `read_csv` and `read_excel`. The model starts from a table of cell texts (`RawFrame`).
- `validate_dataframe`'s in-place overwrite of `df["Timestamp"]` is modelled as a returned column, because a frame is a value here. The overwrite also happens on failure, but it cannot be observed there since `upload_file` then raises.
- `compute_flags` copying its input is true by construction in a value model, so it is not stated as a separate property.
- Timestamps.Strptime, Timestamps.ParseTimestamp: the fixed formats read ASCII digits only. In CPython, `\d` in the `%d`, `%m`, `%Y`, `%H` and `%M` patterns also accepts other Unicode decimal digits (Arabic-Indic digits, say). A value written with such digits is read by a fixed format in the source but goes to the `iso` fallback here. The Unicode digit tables are not modelled.
- Timestamps.ParseTimestamp: years 1 to 9999 are accepted, as `datetime` accepts them. pandas `datetime64[ns]` holds only 1677-09-21 to 2262-04-11. Outside that range the parsed column most likely stays of object dtype, and the `.dt` accessors in `compute_flags` (utils/flags.py:71,108) would then raise. The model computes flags for such dates instead.
- `datetime.fromisoformat` is the parameter `iso` (an arbitrary partial function); its grammar and time zones are not modelled.
- `datetime.utcnow()` is the parameter `now`.
- Floats are modelled exactly:
  - `suspicion_score` is the exact ratio `Ratio(flags, tests)`, and `Value()` is its real value. `float()` rounding is not modelled.
  - `Time_Diff` minutes and the SHIFT_VIOL hours are compared on exact microsecond differences.
  - The device message's minutes are exact floor division of a non-negative span.
- Operator_ID, Device_ID, Location and Test_Type are strings compared by code point. Numeric or NaN cells that pandas would read as numbers or drop from `groupby` are not modelled. In particular, a NaN `Test_Type` in a flagged row would make the preview's `Event` record reject it in `build_summary`, which the model does not capture.
- Python's `repr` of the missing/PII column lists assumes names that need no escaping.
- A `map` keeps no key order, so the insights dict's insertion order is lost; the keys and messages are exact.
- Heatmap.HourlyMatrix: a `map` of `map`s, so the ascending order of operators (`heat.index`) and of hours (`heat.columns`) is lost. The keys and counts are exact.
- The empty batch: the model returns an empty report. In the source, the `.dt` accessor in `compute_flags` likely fails on an empty, non-datetime Timestamp column. Nothing here decides which.
- `/report/pdf`, `/status`, `/notes` (which also writes into `LAST_PROCESSED`), CSV serialisation and PDF generation are not modelled.
- Concurrent requests are not modelled: only sequential transitions of the slot are.
- Upload.ResultStore.Store writes `df`, `timestamp` and `analysis` at once. The source sets `df` and `timestamp` (routes/upload.py:53-54), then runs `build_summary`, and only then sets `analysis` (routes/upload.py:57). If `build_summary` raised, the source would keep the new `df` beside the old `analysis`, a state the model's invariant rules out. `BuildSummary` is total on the modelled all-text cells, so after a completed upload the two agree.
- The `Prev_*`, `Time_Diff`, `Hour`, `Hour_Count` and `User_Count` helper columns that `compute_flags` leaves in the frame are not part of the flagged row (`Event_ID` is, as `eventId`). The exported CSV is modelled as the flagged rows, not their text.
