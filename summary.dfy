/**
 * `build_summary`: the `/upload` response compiled from a flagged frame.
 */
module Summary {
  import opened Wrappers
  import opened Text
  import opened Clock
  import opened Schemas
  import opened Groups
  import opened Heatmap

  /** `df[df["FLAGGED"]].head(100)`. */
  const PREVIEW_LIMIT: nat := 100
  const SHIFT_MESSAGE: string := "Barcode used after >14 hours within 24h window"

  /** `df[df["FLAGGED"]]`: the flagged rows in frame order. */
  function FlaggedRows(rows: seq<FlaggedEvent>): (f: seq<FlaggedEvent>)
    ensures |f| <= |rows|
    ensures forall r :: r in f <==> r in rows && r.flagged
  {
    if rows == [] then []
    else (if rows[0].flagged then [rows[0]] else []) + FlaggedRows(rows[1..])
  }

  /** The first hundred flagged rows. */
  function Preview(rows: seq<FlaggedEvent>): seq<FlaggedEvent>
  {
    var f := FlaggedRows(rows);
    if |f| <= PREVIEW_LIMIT then f else f[..PREVIEW_LIMIT]
  }

  /** The six flag counts of a group, added up. */
  function FlagTotal(g: seq<FlaggedEvent>): nat
  {
    Tally(g, Some(Rapid)) + Tally(g, Some(LocConflict)) + Tally(g, Some(DeviceHop)) +
    Tally(g, Some(ShiftViol)) + Tally(g, Some(LoadDev)) + Tally(g, Some(Coloc))
  }

  /** The `OperatorSummary` of operator `op`'s group. */
  function OperatorSummaryFor(rows: seq<FlaggedEvent>, op: string): OperatorSummary
    requires op in KeySet(rows, OperatorColumn)
  {
    var g := Group(rows, OperatorColumn, op);
    GroupNonEmpty(rows, OperatorColumn, op);
    OperatorSummary(op, |g|, Ratio(FlagTotal(g), |g|),
      Tally(g, Some(Rapid)), Tally(g, Some(LocConflict)), Tally(g, Some(DeviceHop)),
      Tally(g, Some(ShiftViol)), Tally(g, Some(LoadDev)), Tally(g, Some(Coloc)))
  }

  /** The summaries of the operator groups `ks`, in that order. */
  function OperatorSummariesFor(rows: seq<FlaggedEvent>, ks: seq<string>): (ss: seq<OperatorSummary>)
    requires forall k :: k in ks ==> k in KeySet(rows, OperatorColumn)
    ensures |ss| == |ks|
  {
    if ks == [] then [] else OperatorSummariesFor(rows, ks[..|ks| - 1]) + [OperatorSummaryFor(rows, ks[|ks| - 1])]
  }

  /** One `OperatorSummary` per `groupby("Operator_ID")` group, in key order. */
  function OperatorSummaries(rows: seq<FlaggedEvent>): seq<OperatorSummary>
  {
    OperatorSummariesFor(rows, Keys(rows, OperatorColumn))
  }

  /** The `DeviceSummary` of device `dev`'s group. */
  function DeviceSummaryFor(rows: seq<FlaggedEvent>, dev: string): DeviceSummary
  {
    var g := Group(rows, DeviceColumn, dev);
    DeviceSummary(dev, |g|, |KeySet(g, OperatorColumn)|, Tally(g, Some(Coloc)))
  }

  /** The summaries of the device groups `ks`, in that order. */
  function DeviceSummariesFor(rows: seq<FlaggedEvent>, ks: seq<string>): (ds: seq<DeviceSummary>)
    ensures |ds| == |ks|
  {
    if ks == [] then [] else DeviceSummariesFor(rows, ks[..|ks| - 1]) + [DeviceSummaryFor(rows, ks[|ks| - 1])]
  }

  /** One `DeviceSummary` per `groupby("Device_ID")` group, in key order. */
  function DeviceSummaries(rows: seq<FlaggedEvent>): seq<DeviceSummary>
  {
    DeviceSummariesFor(rows, Keys(rows, DeviceColumn))
  }

  /** The frame-wide `FlagStats`. */
  function StatsOf(rows: seq<FlaggedEvent>): FlagStats
  {
    FlagStats(Tally(rows, Some(Rapid)), Tally(rows, Some(LocConflict)), Tally(rows, Some(DeviceHop)),
              Tally(rows, Some(ShiftViol)), Tally(rows, Some(LoadDev)), Tally(rows, Some(Coloc)))
  }

  /** `group["Timestamp"].max()`. */
  function LatestTime(g: seq<FlaggedEvent>): (m: Instant)
    requires g != []
    ensures forall r :: r in g ==> r.event.timestamp <= m
    ensures exists r :: r in g && r.event.timestamp == m
  {
    if |g| == 1 then g[0].event.timestamp
    else
      var rest := LatestTime(g[1..]);
      assert forall r :: r in g ==> r == g[0] || r in g[1..];
      if g[0].event.timestamp >= rest then g[0].event.timestamp else rest
  }

  /** `group["Timestamp"].min()`. */
  function EarliestTime(g: seq<FlaggedEvent>): (m: Instant)
    requires g != []
    ensures forall r :: r in g ==> m <= r.event.timestamp
    ensures exists r :: r in g && r.event.timestamp == m
  {
    if |g| == 1 then g[0].event.timestamp
    else
      var rest := EarliestTime(g[1..]);
      assert forall r :: r in g ==> r == g[0] || r in g[1..];
      if g[0].event.timestamp <= rest then g[0].event.timestamp else rest
  }

  /** Whole minutes between the group's first and last test, truncated. */
  function SpanMinutes(g: seq<FlaggedEvent>): nat
    requires g != []
  {
    (LatestTime(g) - EarliestTime(g)) / MINUTE
  }

  /** The DEVICE_HOP insight: the operator's distinct devices and the minutes their tests span. */
  function DeviceMessage(g: seq<FlaggedEvent>): string
    requires g != []
  {
    "Tested on " + NatToString(|KeySet(g, DeviceColumn)|) + " devices in " + NatToString(SpanMinutes(g)) + " minutes"
  }

  /** An operator gets insights when any of their tests is DEVICE_HOP or SHIFT_VIOL. */
  predicate Qualifies(rows: seq<FlaggedEvent>, op: string)
  {
    var g := Group(rows, OperatorColumn, op);
    Tally(g, Some(DeviceHop)) > 0 || Tally(g, Some(ShiftViol)) > 0
  }

  /** The messages for operator `op`: the device message first, then the shift message. */
  function InsightFor(rows: seq<FlaggedEvent>, op: string): seq<string>
    requires op in KeySet(rows, OperatorColumn)
  {
    var g := Group(rows, OperatorColumn, op);
    GroupNonEmpty(rows, OperatorColumn, op);
    (if Tally(g, Some(DeviceHop)) > 0 then [DeviceMessage(g)] else []) +
    (if Tally(g, Some(ShiftViol)) > 0 then [SHIFT_MESSAGE] else [])
  }

  /** The `insights` dict before `or None`. */
  function InsightMap(rows: seq<FlaggedEvent>): map<string, seq<string>>
  {
    map op | op in KeySet(rows, OperatorColumn) && Qualifies(rows, op) :: InsightFor(rows, op)
  }

  /** The `insights` dict after the loop has visited the operator groups `ks`. */
  function InsightsAfter(rows: seq<FlaggedEvent>, ks: seq<string>): map<string, seq<string>>
    requires forall k :: k in ks ==> k in KeySet(rows, OperatorColumn)
  {
    if ks == [] then map[]
    else
      var m := InsightsAfter(rows, ks[..|ks| - 1]);
      var k := ks[|ks| - 1];
      if Qualifies(rows, k) then m[k := InsightFor(rows, k)] else m
  }

  lemma {:induction false} InsightsAfterKeys(rows: seq<FlaggedEvent>, ks: seq<string>)
    requires forall k :: k in ks ==> k in KeySet(rows, OperatorColumn)
    ensures forall op :: op in InsightsAfter(rows, ks) <==> op in ks && Qualifies(rows, op)
    ensures forall op :: op in InsightsAfter(rows, ks) ==> InsightsAfter(rows, ks)[op] == InsightFor(rows, op)
  {
    if ks != [] {
      InsightsAfterKeys(rows, ks[..|ks| - 1]);
      assert ks == ks[..|ks| - 1] + [ks[|ks| - 1]];
    }
  }

  /** Visiting every operator group builds exactly the `insights` dict. */
  lemma InsightsAfterAll(rows: seq<FlaggedEvent>)
    ensures InsightsAfter(rows, Keys(rows, OperatorColumn)) == InsightMap(rows)
  {
    InsightsAfterKeys(rows, Keys(rows, OperatorColumn));
  }

  /** `insights or None`: an empty dict becomes None. */
  function Insights(rows: seq<FlaggedEvent>): Option<map<string, seq<string>>>
  {
    var m := InsightMap(rows);
    if m == map[] then None else Some(m)
  }

  /** The `UsageSummary` for a flagged frame. */
  function SummaryOf(rows: seq<FlaggedEvent>): UsageSummary
  {
    UsageSummary(Preview(rows), OperatorSummaries(rows), DeviceSummaries(rows), StatsOf(rows),
                 HourlyMatrix(rows), Insights(rows))
  }

  /** The preview loop: copy the first hundred flagged rows. */
  method CollectPreview(rows: seq<FlaggedEvent>) returns (preview: seq<FlaggedEvent>)
    ensures preview == Preview(rows)
  {
    var flagged := FlaggedRows(rows);
    var head := if |flagged| <= PREVIEW_LIMIT then flagged else flagged[..PREVIEW_LIMIT];
    preview := [];
    for i := 0 to |head|
      invariant preview == head[..i]
    {
      preview := preview + [head[i]];
    }
  }

  /** The summary half of the operator loop's body for group `op`. */
  method SummarizeOperator(rows: seq<FlaggedEvent>, op: string) returns (summary: OperatorSummary)
    requires op in KeySet(rows, OperatorColumn)
    ensures summary == OperatorSummaryFor(rows, op)
  {
    var group := Group(rows, OperatorColumn, op);
    GroupNonEmpty(rows, OperatorColumn, op);
    var rapid := Tally(group, Some(Rapid));
    var loc := Tally(group, Some(LocConflict));
    var hop := Tally(group, Some(DeviceHop));
    var shift := Tally(group, Some(ShiftViol));
    var load := Tally(group, Some(LoadDev));
    var coloc := Tally(group, Some(Coloc));
    var suspicion := Ratio(rapid + loc + hop + shift + load + coloc, |group|);
    summary := OperatorSummary(op, |group|, suspicion, rapid, loc, hop, shift, load, coloc);
  }

  /** The insights half of the operator loop's body for group `op`: its messages, empty when it does not qualify. */
  method CollectMessages(rows: seq<FlaggedEvent>, op: string) returns (messages: seq<string>)
    requires op in KeySet(rows, OperatorColumn)
    ensures messages != [] <==> Qualifies(rows, op)
    ensures messages != [] ==> messages == InsightFor(rows, op)
  {
    var group := Group(rows, OperatorColumn, op);
    GroupNonEmpty(rows, OperatorColumn, op);
    var hop := Tally(group, Some(DeviceHop)) > 0;
    var shift := Tally(group, Some(ShiftViol)) > 0;
    ghost var expected := InsightFor(rows, op);
    assert expected == (if hop then [DeviceMessage(group)] else []) + (if shift then [SHIFT_MESSAGE] else []);
    messages := [];
    if hop {
      messages := messages + [DeviceMessage(group)];
      assert messages == [DeviceMessage(group)];
    }
    ghost var first := messages;
    if shift {
      messages := messages + [SHIFT_MESSAGE];
    }
    assert messages == first + (if shift then [SHIFT_MESSAGE] else []);
  }

  /** Extending the visited operator groups by one adds its summary and, if it qualifies, its entry. */
  lemma OperatorStep(rows: seq<FlaggedEvent>, ops: seq<string>, i: int)
    requires forall k :: k in ops ==> k in KeySet(rows, OperatorColumn)
    requires 0 <= i < |ops|
    ensures OperatorSummariesFor(rows, ops[..i + 1]) ==
      OperatorSummariesFor(rows, ops[..i]) + [OperatorSummaryFor(rows, ops[i])]
    ensures InsightsAfter(rows, ops[..i + 1]) ==
      if Qualifies(rows, ops[i]) then InsightsAfter(rows, ops[..i])[ops[i] := InsightFor(rows, ops[i])]
      else InsightsAfter(rows, ops[..i])
  {
    assert ops[..i + 1][..i] == ops[..i];
    assert ops[..i + 1][i] == ops[i];
  }

  /** The operator loop: one summary per group, and the insight messages of the groups that qualify. */
  method SummarizeOperators(rows: seq<FlaggedEvent>) returns (operators: seq<OperatorSummary>, insights: map<string, seq<string>>)
    ensures operators == OperatorSummaries(rows)
    ensures insights == InsightMap(rows)
  {
    var ops := Keys(rows, OperatorColumn);
    operators := [];
    insights := map[];
    for i := 0 to |ops|
      invariant operators == OperatorSummariesFor(rows, ops[..i])
      invariant insights == InsightsAfter(rows, ops[..i])
    {
      OperatorStep(rows, ops, i);
      var summary := SummarizeOperator(rows, ops[i]);
      var messages := CollectMessages(rows, ops[i]);
      operators := operators + [summary];
      if messages != [] {
        insights := insights[ops[i] := messages];
      }
    }
    assert ops[..|ops|] == ops;
    InsightsAfterAll(rows);
  }

  /** The device loop: one summary per group. */
  method SummarizeDevices(rows: seq<FlaggedEvent>) returns (devices: seq<DeviceSummary>)
    ensures devices == DeviceSummaries(rows)
  {
    var devs := Keys(rows, DeviceColumn);
    devices := [];
    for i := 0 to |devs|
      invariant devices == DeviceSummariesFor(rows, devs[..i])
    {
      assert devs[..i + 1][..i] == devs[..i];
      var group := Group(rows, DeviceColumn, devs[i]);
      devices := devices + [DeviceSummary(devs[i], |group|, |KeySet(group, OperatorColumn)|, Tally(group, Some(Coloc)))];
    }
    assert devs[..|devs|] == devs;
  }

  /** `build_summary(df)`. */
  method BuildSummary(rows: seq<FlaggedEvent>) returns (u: UsageSummary)
    ensures u == SummaryOf(rows)
  {
    var preview := CollectPreview(rows);
    var operators, insights := SummarizeOperators(rows);
    var devices := SummarizeDevices(rows);
    var stats := FlagStats(Tally(rows, Some(Rapid)), Tally(rows, Some(LocConflict)), Tally(rows, Some(DeviceHop)),
                           Tally(rows, Some(ShiftViol)), Tally(rows, Some(LoadDev)), Tally(rows, Some(Coloc)));
    var heatmap := HourlyMatrix(rows);
    u := UsageSummary(preview, operators, devices, stats, heatmap, if insights == map[] then None else Some(insights));
  }
}
