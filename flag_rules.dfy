/**
 * What `compute_flags` computes, stated row by row over the sorted batch:
 * the six misuse heuristics of utils/flags.py and their thresholds.
 */
module FlagRules {
  import opened Wrappers
  import opened Text
  import opened Clock
  import opened Schemas
  import opened Sorting

  /** RAPID: the gap to the previous test is under one minute. */
  const RAPID_GAP: int := MINUTE
  /** LOC_CONFLICT: a location change within five minutes. */
  const LOC_GAP: int := 5 * MINUTE
  /** DEVICE_HOP: three devices within a ten-minute window. */
  const HOP_WINDOW: int := 10 * MINUTE
  const HOP_DEVICES: nat := 3
  /** SHIFT_VIOL: a span over fourteen hours within a 24-hour window. */
  const SHIFT_WINDOW: int := 24 * HOUR
  const SHIFT_SPAN: int := 14 * HOUR
  /** LOAD_DEV: more than twenty tests by one operator in one clock hour. */
  const LOAD_LIMIT: nat := 20
  /** COLOC: three operators on one device in one clock hour. */
  const COLOC_USERS: nat := 3

  /**
   * `groupby("Operator_ID").shift()` on the sorted batch: the row before `i`
   * when it belongs to the same operator, and nothing (NaN) otherwise.
   */
  function Prev(s: seq<Event>, i: int): Option<Event>
    requires 0 <= i < |s|
  {
    if i > 0 && s[i - 1].operatorId == s[i].operatorId then Some(s[i - 1]) else None
  }

  /** `Time_Diff < 1`; a NaN difference compares false. */
  predicate RapidAt(s: seq<Event>, i: int)
    requires 0 <= i < |s|
  {
    var p := Prev(s, i);
    p.Some? && s[i].timestamp - p.value.timestamp < RAPID_GAP
  }

  /** `Location != Prev_Location` and `Time_Diff <= 5`. */
  predicate LocConflictAt(s: seq<Event>, i: int)
    requires 0 <= i < |s|
  {
    var p := Prev(s, i);
    p.Some? && s[i].location != p.value.location && s[i].timestamp - p.value.timestamp <= LOC_GAP
  }

  /** Row `j` lies in the trailing window `[s[a] - span, s[a]]` of anchor `a`'s timestamp. */
  predicate Within(s: seq<Event>, a: int, j: int, span: int)
    requires 0 <= a < |s| && 0 <= j < |s|
  {
    s[a].timestamp - span <= s[j].timestamp <= s[a].timestamp
  }

  /** Row `j` is in the subset the loop body selects for anchor `a`: same operator, inside the window. */
  predicate InWindow(s: seq<Event>, a: int, j: int, span: int)
    requires 0 <= a < |s| && 0 <= j < |s|
  {
    s[j].operatorId == s[a].operatorId && Within(s, a, j, span)
  }

  /** The distinct devices of anchor `a`'s ten-minute window. */
  function WindowDevices(s: seq<Event>, a: int): set<string>
    requires 0 <= a < |s|
  {
    set j | 0 <= j < |s| && InWindow(s, a, j, HOP_WINDOW) :: s[j].deviceId
  }

  /** Anchor `a`'s window has at least three distinct devices. */
  predicate HopAnchor(s: seq<Event>, a: int)
    requires 0 <= a < |s|
  {
    |WindowDevices(s, a)| >= HOP_DEVICES
  }

  /** DEVICE_HOP: some anchor of the same operator marks row `i`. */
  predicate DeviceHopAt(s: seq<Event>, i: int)
    requires 0 <= i < |s|
  {
    exists a :: 0 <= a < |s| && HopAnchor(s, a) && InWindow(s, a, i, HOP_WINDOW)
  }

  /** Anchor `a`'s 24-hour window reaches back more than fourteen hours. */
  predicate ShiftAnchor(s: seq<Event>, a: int)
    requires 0 <= a < |s|
  {
    exists j :: 0 <= j < |s| && InWindow(s, a, j, SHIFT_WINDOW) && s[a].timestamp - s[j].timestamp > SHIFT_SPAN
  }

  /** SHIFT_VIOL: some anchor of the same operator marks row `i`. */
  predicate ShiftViolAt(s: seq<Event>, i: int)
    requires 0 <= i < |s|
  {
    exists a :: 0 <= a < |s| && ShiftAnchor(s, a) && InWindow(s, a, i, SHIFT_WINDOW)
  }

  /** The size of the (Operator_ID, Hour) bucket `(op, hour)`. */
  function BucketLoad(s: seq<Event>, op: string, hour: Instant): nat
  {
    if s == [] then 0
    else (if s[0].operatorId == op && HourFloor(s[0].timestamp) == hour then 1 else 0) + BucketLoad(s[1..], op, hour)
  }

  /** `Hour_Count > 20` for row `i`'s bucket. */
  predicate LoadDevAt(s: seq<Event>, i: int)
    requires 0 <= i < |s|
  {
    BucketLoad(s, s[i].operatorId, HourFloor(s[i].timestamp)) > LOAD_LIMIT
  }

  /** The distinct operators of the (Device_ID, Hour) bucket `(dev, hour)`. */
  function BucketUsers(s: seq<Event>, dev: string, hour: Instant): set<string>
  {
    set j | 0 <= j < |s| && s[j].deviceId == dev && HourFloor(s[j].timestamp) == hour :: s[j].operatorId
  }

  /** `User_Count >= 3` for row `i`'s bucket. */
  predicate ColocAt(s: seq<Event>, i: int)
    requires 0 <= i < |s|
  {
    |BucketUsers(s, s[i].deviceId, HourFloor(s[i].timestamp))| >= COLOC_USERS
  }

  /** Row `i` of the sorted batch with its `Event_ID` and all seven flag columns. */
  ghost function Enrich(s: seq<Event>, i: int): FlaggedEvent
    requires 0 <= i < |s|
  {
    var rapid := RapidAt(s, i);
    var loc := LocConflictAt(s, i);
    var hop := DeviceHopAt(s, i);
    var shift := ShiftViolAt(s, i);
    var load := LoadDevAt(s, i);
    var coloc := ColocAt(s, i);
    FlaggedEvent(i + 1, s[i], rapid, loc, hop, shift, load, coloc,
                 rapid || loc || hop || shift || load || coloc)
  }

  /** The frame `compute_flags` returns for `batch`. */
  ghost function FlagBatch(batch: seq<Event>): seq<FlaggedEvent>
  {
    var s := SortEvents(batch);
    seq(|s|, i requires 0 <= i < |s| => Enrich(s, i))
  }

  /** The events of a flagged frame, without their flag columns. */
  function EventsOf(rows: seq<FlaggedEvent>): (r: seq<Event>)
    ensures |r| == |rows|
    ensures forall i :: 0 <= i < |rows| ==> r[i] == rows[i].event
  {
    seq(|rows|, i requires 0 <= i < |rows| => rows[i].event)
  }
}
