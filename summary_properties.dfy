/**
 * What the `/upload` response promises about the flagged frame it summarises.
 */
module SummaryProperties {
  import opened Wrappers
  import opened Text
  import opened Clock
  import opened Schemas
  import opened Groups
  import opened Summary

  /** The test total (`sel` None) or one flag count (`sel` = `Some(f)`) of a summary. */
  function SummaryCount(s: OperatorSummary, sel: Option<Flag>): nat
  {
    if sel.None? then s.totalTests else s.Count(sel.value)
  }

  /** A total or a flag count added up over operator summaries. */
  function SumOverOperators(ss: seq<OperatorSummary>, sel: Option<Flag>): nat
  {
    if ss == [] then 0 else SumOverOperators(ss[..|ss| - 1], sel) + SummaryCount(ss[|ss| - 1], sel)
  }

  /** `total_tests` added up over device summaries. */
  function DeviceTestTotal(ds: seq<DeviceSummary>): nat
  {
    if ds == [] then 0 else DeviceTestTotal(ds[..|ds| - 1]) + ds[|ds| - 1].totalTests
  }

  /** What one operator summary holds, field by field. */
  lemma OperatorSummaryForFields(rows: seq<FlaggedEvent>, k: string)
    requires k in KeySet(rows, OperatorColumn)
    ensures OperatorSummaryFor(rows, k).operatorId == k
    ensures OperatorSummaryFor(rows, k).totalTests == |Group(rows, OperatorColumn, k)|
    ensures forall f :: OperatorSummaryFor(rows, k).Count(f) == Tally(Group(rows, OperatorColumn, k), Some(f))
    ensures OperatorSummaryFor(rows, k).suspicionScore ==
      Ratio(FlagTotal(Group(rows, OperatorColumn, k)), |Group(rows, OperatorColumn, k)|)
  {
    var s := OperatorSummaryFor(rows, k);
    forall f ensures s.Count(f) == Tally(Group(rows, OperatorColumn, k), Some(f)) {
      match f
      case Rapid =>
      case LocConflict =>
      case DeviceHop =>
      case ShiftViol =>
      case LoadDev =>
      case Coloc =>
    }
  }

  lemma {:induction false} OperatorSummariesFields(rows: seq<FlaggedEvent>, ks: seq<string>)
    requires forall k :: k in ks ==> k in KeySet(rows, OperatorColumn)
    ensures forall i :: 0 <= i < |ks| ==> OperatorSummariesFor(rows, ks)[i] == OperatorSummaryFor(rows, ks[i])
  {
    if ks != [] {
      OperatorSummariesFields(rows, ks[..|ks| - 1]);
    }
  }

  lemma {:induction false} DeviceSummariesFields(rows: seq<FlaggedEvent>, ks: seq<string>)
    ensures forall i :: 0 <= i < |ks| ==> DeviceSummariesFor(rows, ks)[i] == DeviceSummaryFor(rows, ks[i])
  {
    if ks != [] {
      DeviceSummariesFields(rows, ks[..|ks| - 1]);
    }
  }

  /** The operator summaries are in strictly ascending `Operator_ID` order, hence one per operator. */
  lemma OperatorSummariesAscending(rows: seq<FlaggedEvent>)
    ensures var ss := OperatorSummaries(rows);
      forall i, j :: 0 <= i < j < |ss| ==> Less(ss[i].operatorId, ss[j].operatorId)
  {
    OperatorSummariesFields(rows, Keys(rows, OperatorColumn));
  }

  /** Every operator summary belongs to an operator of the frame. */
  lemma OperatorSummariesFromFrame(rows: seq<FlaggedEvent>)
    ensures var ss := OperatorSummaries(rows);
      forall i :: 0 <= i < |ss| ==> exists r :: r in rows && r.event.operatorId == ss[i].operatorId
  {
    var ks := Keys(rows, OperatorColumn);
    var ss := OperatorSummaries(rows);
    OperatorSummariesFields(rows, ks);
    forall i | 0 <= i < |ss| ensures exists r :: r in rows && r.event.operatorId == ss[i].operatorId {
      assert ks[i] in KeySet(rows, OperatorColumn);
      var r :| r in rows && KeyOf(r, OperatorColumn) == ks[i];
    }
  }

  /** Every operator of the frame has an operator summary. */
  lemma OperatorSummariesCover(rows: seq<FlaggedEvent>)
    ensures var ss := OperatorSummaries(rows);
      forall r :: r in rows ==> exists i :: 0 <= i < |ss| && ss[i].operatorId == r.event.operatorId
  {
    var ks := Keys(rows, OperatorColumn);
    var ss := OperatorSummaries(rows);
    OperatorSummariesFields(rows, ks);
    forall r | r in rows ensures exists i :: 0 <= i < |ss| && ss[i].operatorId == r.event.operatorId {
      assert KeyOf(r, OperatorColumn) in KeySet(rows, OperatorColumn);
      var i :| 0 <= i < |ks| && ks[i] == r.event.operatorId;
      assert ss[i].operatorId == r.event.operatorId;
    }
  }

  /** Each operator summary counts its own group: at least one test, every flag count within it, score in [0, 6]. */
  lemma OperatorSummaryBounds(rows: seq<FlaggedEvent>, i: int)
    requires 0 <= i < |OperatorSummaries(rows)|
    ensures var s := OperatorSummaries(rows)[i];
      s.totalTests == |Group(rows, OperatorColumn, s.operatorId)| && s.totalTests >= 1
    ensures var s := OperatorSummaries(rows)[i];
      forall f :: s.Count(f) <= s.totalTests
    ensures var s := OperatorSummaries(rows)[i];
      s.suspicionScore.tests == s.totalTests && 0.0 <= s.suspicionScore.Value() <= 6.0
  {
    var ks := Keys(rows, OperatorColumn);
    var s := OperatorSummaries(rows)[i];
    OperatorSummariesFields(rows, ks);
    OperatorSummaryForFields(rows, ks[i]);
    var g := Group(rows, OperatorColumn, ks[i]);
    GroupNonEmpty(rows, OperatorColumn, ks[i]);
    assert s.Count(Rapid) == s.rapidCount && s.Count(LocConflict) == s.locConflictCount;
    assert s.Count(DeviceHop) == s.deviceHopCount && s.Count(ShiftViol) == s.shiftViolCount;
    assert s.Count(LoadDev) == s.loadDevCount && s.Count(Coloc) == s.colocCount;
    ScoreBounds(FlagTotal(g), |g|);
  }

  /** `suspicion_score` is the sum of the six flag counts over `total_tests`, which is never zero. */
  lemma OperatorScore(rows: seq<FlaggedEvent>, i: int)
    requires 0 <= i < |OperatorSummaries(rows)|
    ensures var s := OperatorSummaries(rows)[i];
      s.totalTests > 0 &&
      s.suspicionScore == Ratio(s.rapidCount + s.locConflictCount + s.deviceHopCount +
                                s.shiftViolCount + s.loadDevCount + s.colocCount, s.totalTests)
  {
    var ks := Keys(rows, OperatorColumn);
    var s := OperatorSummaries(rows)[i];
    OperatorSummariesFields(rows, ks);
    OperatorSummaryForFields(rows, ks[i]);
    GroupNonEmpty(rows, OperatorColumn, ks[i]);
    assert s.Count(Rapid) == s.rapidCount && s.Count(LocConflict) == s.locConflictCount;
    assert s.Count(DeviceHop) == s.deviceHopCount && s.Count(ShiftViol) == s.shiftViolCount;
    assert s.Count(LoadDev) == s.loadDevCount && s.Count(Coloc) == s.colocCount;
  }

  lemma ScoreBounds(flags: nat, tests: nat)
    requires 0 < tests && flags <= 6 * tests
    ensures 0.0 <= Ratio(flags, tests).Value() <= 6.0
    ensures Ratio(flags, tests).Value() * tests as real == flags as real
  {
    var t := tests as real;
    var f := flags as real;
    DivMul(f, t);
    DivNonNegative(f, t);
    DivMonotone(f, 6.0 * t, t);
    MulDiv(6.0, t);
  }

  lemma DivMul(x: real, y: real)
    requires y > 0.0
    ensures (x / y) * y == x
  {
  }

  lemma MulDiv(c: real, y: real)
    requires y > 0.0
    ensures (c * y) / y == c
  {
  }

  lemma DivMonotone(x: real, z: real, y: real)
    requires y > 0.0 && x <= z
    ensures x / y <= z / y
  {
  }

  lemma DivNonNegative(x: real, y: real)
    requires y > 0.0 && x >= 0.0
    ensures x / y >= 0.0
  {
  }

  lemma {:induction false} OperatorSumsAreGroupSums(rows: seq<FlaggedEvent>, ks: seq<string>, sel: Option<Flag>)
    requires forall k :: k in ks ==> k in KeySet(rows, OperatorColumn)
    ensures SumOverOperators(OperatorSummariesFor(rows, ks), sel) == SumTally(rows, OperatorColumn, ks, sel)
  {
    if ks != [] {
      var init := ks[..|ks| - 1];
      OperatorSumsAreGroupSums(rows, init, sel);
      assert init + [ks[|ks| - 1]] == ks;
      SumTallyAppend(rows, OperatorColumn, init, ks[|ks| - 1], sel);
      var ss := OperatorSummariesFor(rows, ks);
      assert ss[..|ss| - 1] == OperatorSummariesFor(rows, init);
      OperatorSummaryForFields(rows, ks[|ks| - 1]);
    }
  }

  /**
   * The operator summaries partition the frame: their `total_tests` add up
   * to the number of rows, and each flag's per-operator counts add up to the
   * number of rows raising it, which is also the `FlagStats` field.
   */
  lemma OperatorSummariesPartition(rows: seq<FlaggedEvent>, sel: Option<Flag>)
    ensures SumOverOperators(OperatorSummaries(rows), sel) == Tally(rows, sel)
    ensures SumOverOperators(OperatorSummaries(rows), None) == |rows|
    ensures sel.Some? ==> StatsOf(rows).Count(sel.value) == SumOverOperators(OperatorSummaries(rows), sel)
  {
    if sel.Some? {
      StatsCount(rows, sel.value);
    }
    var ks := Keys(rows, OperatorColumn);
    assert forall r :: r in rows ==> KeyOf(r, OperatorColumn) in KeySet(rows, OperatorColumn);
    OperatorSumsAreGroupSums(rows, ks, sel);
    SumTallyPartition(rows, OperatorColumn, ks, sel);
    OperatorSumsAreGroupSums(rows, ks, None);
    SumTallyPartition(rows, OperatorColumn, ks, None);
  }

  /** Each `FlagStats` field counts the rows raising its flag. */
  lemma StatsCount(rows: seq<FlaggedEvent>, f: Flag)
    ensures StatsOf(rows).Count(f) == Tally(rows, Some(f))
  {
    match f
    case Rapid =>
    case LocConflict =>
    case DeviceHop =>
    case ShiftViol =>
    case LoadDev =>
    case Coloc =>
  }

  lemma {:induction false} DeviceTotalsAreGroupSums(rows: seq<FlaggedEvent>, ks: seq<string>)
    ensures DeviceTestTotal(DeviceSummariesFor(rows, ks)) == SumTally(rows, DeviceColumn, ks, None)
  {
    if ks != [] {
      var init := ks[..|ks| - 1];
      DeviceTotalsAreGroupSums(rows, init);
      assert init + [ks[|ks| - 1]] == ks;
      SumTallyAppend(rows, DeviceColumn, init, ks[|ks| - 1], None);
      var ds := DeviceSummariesFor(rows, ks);
      assert ds[..|ds| - 1] == DeviceSummariesFor(rows, init);
    }
  }

  /** The device summaries are in strictly ascending `Device_ID` order, hence one per device. */
  lemma DeviceSummariesAscending(rows: seq<FlaggedEvent>)
    ensures var ds := DeviceSummaries(rows);
      forall i, j :: 0 <= i < j < |ds| ==> Less(ds[i].deviceId, ds[j].deviceId)
  {
    DeviceSummariesFields(rows, Keys(rows, DeviceColumn));
  }

  /** There is a device summary for exactly the devices that occur in the frame. */
  lemma DeviceSummariesCover(rows: seq<FlaggedEvent>)
    ensures var ds := DeviceSummaries(rows);
      forall i :: 0 <= i < |ds| ==> exists r :: r in rows && r.event.deviceId == ds[i].deviceId
    ensures var ds := DeviceSummaries(rows);
      forall r :: r in rows ==> exists i :: 0 <= i < |ds| && ds[i].deviceId == r.event.deviceId
  {
    var ks := Keys(rows, DeviceColumn);
    var ds := DeviceSummaries(rows);
    DeviceSummariesFields(rows, ks);
    forall r | r in rows ensures exists i :: 0 <= i < |ds| && ds[i].deviceId == r.event.deviceId {
      assert KeyOf(r, DeviceColumn) in KeySet(rows, DeviceColumn);
      var i :| 0 <= i < |ks| && ks[i] == r.event.deviceId;
      assert ds[i].deviceId == r.event.deviceId;
    }
    forall i | 0 <= i < |ds| ensures exists r :: r in rows && r.event.deviceId == ds[i].deviceId {
      assert ks[i] in KeySet(rows, DeviceColumn);
      var r :| r in rows && KeyOf(r, DeviceColumn) == ks[i];
    }
  }

  /** The device summaries' `total_tests` add up to the number of rows. */
  lemma DeviceSummariesPartition(rows: seq<FlaggedEvent>)
    ensures DeviceTestTotal(DeviceSummaries(rows)) == |rows|
  {
    var ks := Keys(rows, DeviceColumn);
    assert forall r :: r in rows ==> KeyOf(r, DeviceColumn) in KeySet(rows, DeviceColumn);
    DeviceTotalsAreGroupSums(rows, ks);
    SumTallyPartition(rows, DeviceColumn, ks, None);
  }

  /**
   * Each device summary counts its own group, has between one and
   * `total_tests` distinct operators and at most `total_tests` COLOC rows.
   */
  lemma DeviceSummaryBounds(rows: seq<FlaggedEvent>, i: int)
    requires 0 <= i < |DeviceSummaries(rows)|
    ensures var d := DeviceSummaries(rows)[i];
      d.totalTests == |Group(rows, DeviceColumn, d.deviceId)| &&
      d.uniqueUsers == |KeySet(Group(rows, DeviceColumn, d.deviceId), OperatorColumn)|
    ensures var d := DeviceSummaries(rows)[i];
      1 <= d.uniqueUsers <= d.totalTests && d.colocEvents <= d.totalTests
  {
    var ks := Keys(rows, DeviceColumn);
    DeviceSummariesFields(rows, ks);
    GroupNonEmpty(rows, DeviceColumn, ks[i]);
    KeySetBound(Group(rows, DeviceColumn, ks[i]), OperatorColumn);
  }

  /**
   * An operator has an insights entry exactly when their summary shows a
   * DEVICE_HOP or SHIFT_VIOL test.
   */
  lemma InsightKeys(rows: seq<FlaggedEvent>, op: string)
    ensures op in InsightMap(rows) <==>
      exists i :: 0 <= i < |OperatorSummaries(rows)| && OperatorSummaries(rows)[i].operatorId == op &&
        (OperatorSummaries(rows)[i].deviceHopCount > 0 || OperatorSummaries(rows)[i].shiftViolCount > 0)
  {
    var ks := Keys(rows, OperatorColumn);
    var ss := OperatorSummaries(rows);
    OperatorSummariesFields(rows, ks);
    if op in InsightMap(rows) {
      var i :| 0 <= i < |ks| && ks[i] == op;
      OperatorSummaryForFields(rows, op);
      assert ss[i].Count(DeviceHop) == ss[i].deviceHopCount && ss[i].Count(ShiftViol) == ss[i].shiftViolCount;
    }
    if exists i :: 0 <= i < |ss| && ss[i].operatorId == op && (ss[i].deviceHopCount > 0 || ss[i].shiftViolCount > 0) {
      var i :| 0 <= i < |ss| && ss[i].operatorId == op && (ss[i].deviceHopCount > 0 || ss[i].shiftViolCount > 0);
      OperatorSummaryForFields(rows, ks[i]);
      assert ss[i].Count(DeviceHop) == ss[i].deviceHopCount && ss[i].Count(ShiftViol) == ss[i].shiftViolCount;
      assert ks[i] in ks;
    }
  }

  /** `insights` is None exactly when no operator summary shows a DEVICE_HOP or SHIFT_VIOL test. */
  lemma InsightsNone(rows: seq<FlaggedEvent>)
    ensures Insights(rows).None? <==>
      forall i :: 0 <= i < |OperatorSummaries(rows)| ==>
        OperatorSummaries(rows)[i].deviceHopCount == 0 && OperatorSummaries(rows)[i].shiftViolCount == 0
  {
    var ss := OperatorSummaries(rows);
    var m := InsightMap(rows);
    if |m| > 0 {
      var op :| op in m;
      InsightKeys(rows, op);
    } else {
      forall i | 0 <= i < |ss| ensures ss[i].deviceHopCount == 0 && ss[i].shiftViolCount == 0 {
        InsightKeys(rows, ss[i].operatorId);
      }
    }
  }

  /**
   * The messages of an operator's entry: the device message first exactly
   * when some test is DEVICE_HOP, the fixed shift message last exactly when
   * some test is SHIFT_VIOL.
   */
  lemma InsightMessages(rows: seq<FlaggedEvent>, op: string)
    requires op in InsightMap(rows)
    ensures 1 <= |InsightMap(rows)[op]| <= 2
    ensures Tally(Group(rows, OperatorColumn, op), Some(DeviceHop)) > 0 <==>
      InsightMap(rows)[op][0] == DeviceMessage(Group(rows, OperatorColumn, op))
    ensures Tally(Group(rows, OperatorColumn, op), Some(ShiftViol)) > 0 <==>
      InsightMap(rows)[op][|InsightMap(rows)[op]| - 1] == SHIFT_MESSAGE
  {
    InsightEntry(rows, op);
    var ms := InsightMap(rows)[op];
    assert ms == InsightFor(rows, op);
    InsightForMessages(rows, op);
  }

  lemma InsightEntry(rows: seq<FlaggedEvent>, op: string)
    requires op in InsightMap(rows)
    ensures op in KeySet(rows, OperatorColumn) && Qualifies(rows, op)
    ensures InsightMap(rows)[op] == InsightFor(rows, op)
  {
  }

  lemma InsightForMessages(rows: seq<FlaggedEvent>, op: string)
    requires op in KeySet(rows, OperatorColumn) && Qualifies(rows, op)
    ensures 1 <= |InsightFor(rows, op)| <= 2
    ensures Tally(Group(rows, OperatorColumn, op), Some(DeviceHop)) > 0 <==>
      InsightFor(rows, op)[0] == DeviceMessage(Group(rows, OperatorColumn, op))
    ensures Tally(Group(rows, OperatorColumn, op), Some(ShiftViol)) > 0 <==>
      InsightFor(rows, op)[|InsightFor(rows, op)| - 1] == SHIFT_MESSAGE
  {
    var g := Group(rows, OperatorColumn, op);
    GroupNonEmpty(rows, OperatorColumn, op);
    var d := DeviceMessage(g);
    DeviceMessageStart(g);
    var hop := Tally(g, Some(DeviceHop)) > 0;
    var shift := Tally(g, Some(ShiftViol)) > 0;
    var ms := InsightFor(rows, op);
    assert ms == (if hop then [d] else []) + (if shift then [SHIFT_MESSAGE] else []);
    if hop && shift {
      assert ms == [d, SHIFT_MESSAGE];
    } else if hop {
      assert ms == [d];
    } else {
      assert ms == [SHIFT_MESSAGE];
    }
  }

  lemma DeviceMessageStart(g: seq<FlaggedEvent>)
    requires g != []
    ensures DeviceMessage(g) != SHIFT_MESSAGE
  {
    var rest := NatToString(|KeySet(g, DeviceColumn)|) + " devices in " + NatToString(SpanMinutes(g)) + " minutes";
    assert DeviceMessage(g) == "Tested on " + rest;
    var msg := DeviceMessage(g);
    assert msg[|msg| - 1] == 's';
    assert SHIFT_MESSAGE[|SHIFT_MESSAGE| - 1] == 'w';
  }

  /**
   * The device message's minutes are the whole minutes between the
   * operator's earliest and latest test, truncated.
   */
  lemma SpanMinutesBounds(g: seq<FlaggedEvent>, first: FlaggedEvent, last: FlaggedEvent)
    requires first in g && last in g
    requires forall r :: r in g ==> first.event.timestamp <= r.event.timestamp <= last.event.timestamp
    ensures SpanMinutes(g) * MINUTE <= last.event.timestamp - first.event.timestamp < (SpanMinutes(g) + 1) * MINUTE
  {
    var lo := EarliestTime(g);
    var hi := LatestTime(g);
    var a :| a in g && a.event.timestamp == lo;
    var b :| b in g && b.event.timestamp == hi;
    assert first.event.timestamp == lo && last.event.timestamp == hi;
    FloorDivBounds(hi - lo, MINUTE);
  }

  lemma FloorDivBounds(d: int, k: int)
    requires k > 0
    ensures (d / k) * k <= d < (d / k + 1) * k
  {
    assert d == (d / k) * k + d % k;
    assert (d / k + 1) * k == (d / k) * k + k;
  }

  /** Event ids strictly ascending, as `compute_flags` numbers them. */
  ghost predicate IdsAscending(rows: seq<FlaggedEvent>)
  {
    forall i, j :: 0 <= i < j < |rows| ==> rows[i].eventId < rows[j].eventId
  }

  lemma {:induction false} FlaggedRowsAscending(rows: seq<FlaggedEvent>)
    requires IdsAscending(rows)
    ensures IdsAscending(FlaggedRows(rows))
  {
    if rows != [] {
      FlaggedRowsAscending(rows[1..]);
      var f := FlaggedRows(rows[1..]);
      if rows[0].flagged {
        forall j | 0 <= j < |f| ensures rows[0].eventId < f[j].eventId {
          assert f[j] in rows[1..];
        }
      }
    }
  }

  /**
   * The preview holds only flagged rows of the frame, at most a hundred,
   * every flagged row when there are no more than a hundred, and keeps
   * frame order.
   */
  lemma PreviewFacts(rows: seq<FlaggedEvent>)
    ensures |Preview(rows)| == if |FlaggedRows(rows)| <= PREVIEW_LIMIT then |FlaggedRows(rows)| else PREVIEW_LIMIT
    ensures forall r :: r in Preview(rows) ==> r in rows && r.flagged
    ensures |FlaggedRows(rows)| <= PREVIEW_LIMIT ==> forall r :: r in rows && r.flagged ==> r in Preview(rows)
    ensures IdsAscending(rows) ==> IdsAscending(Preview(rows))
  {
    var f := FlaggedRows(rows);
    if |f| > PREVIEW_LIMIT {
      forall r | r in f[..PREVIEW_LIMIT] ensures r in f { }
    }
    if IdsAscending(rows) {
      FlaggedRowsAscending(rows);
    }
  }
}
