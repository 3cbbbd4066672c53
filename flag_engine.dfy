/**
 * `compute_flags` as the program runs it: sort, number, derive the
 * predecessor columns, scatter the window flags group by group, then join
 * the bucket flags and OR everything into FLAGGED.
 */
module FlagEngine {
  import opened Clock
  import opened Schemas
  import opened Sorting
  import opened FlagRules

  /** The end of the operator group that starts at `lo` in a sorted batch. */
  method GroupEnd(s: seq<Event>, lo: int) returns (hi: int)
    requires 0 <= lo < |s|
    ensures lo < hi <= |s|
    ensures forall j :: lo <= j < hi ==> s[j].operatorId == s[lo].operatorId
    ensures hi == |s| || s[hi].operatorId != s[lo].operatorId
  {
    hi := lo + 1;
    while hi < |s| && s[hi].operatorId == s[lo].operatorId
      invariant lo < hi <= |s|
      invariant forall j :: lo <= j < hi ==> s[j].operatorId == s[lo].operatorId
    {
      hi := hi + 1;
    }
  }

  /** The rows of group `lo..hi` whose timestamp lies in anchor `a`'s trailing window. */
  method WindowMembers(s: seq<Event>, lo: int, hi: int, a: int, span: int) returns (members: seq<int>)
    requires 0 <= lo <= a < hi <= |s|
    ensures forall x :: 0 <= x < |members| ==> lo <= members[x] < hi
    ensures forall j :: j in members <==> lo <= j < hi && Within(s, a, j, span)
  {
    members := [];
    for j := lo to hi
      invariant forall x :: 0 <= x < |members| ==> lo <= members[x] < j
      invariant forall k :: k in members <==> lo <= k < j && Within(s, a, k, span)
    {
      if Within(s, a, j, span) {
        members := members + [j];
      }
    }
  }

  /** `nunique()` of the devices of the selected rows. */
  method DistinctDevices(s: seq<Event>, members: seq<int>) returns (n: nat)
    requires forall x :: 0 <= x < |members| ==> 0 <= members[x] < |s|
    ensures n == |set x | 0 <= x < |members| :: s[members[x]].deviceId|
  {
    var devices: set<string> := {};
    for m := 0 to |members|
      invariant devices == set x | 0 <= x < m :: s[members[x]].deviceId
    {
      devices := devices + {s[members[m]].deviceId};
    }
    n := |devices|;
  }

  /** `min()` of the timestamps of the selected rows. */
  method Earliest(s: seq<Event>, members: seq<int>) returns (m: Instant)
    requires members != []
    requires forall x :: 0 <= x < |members| ==> 0 <= members[x] < |s|
    ensures exists x :: 0 <= x < |members| && s[members[x]].timestamp == m
    ensures forall x :: 0 <= x < |members| ==> m <= s[members[x]].timestamp
  {
    m := s[members[0]].timestamp;
    for y := 1 to |members|
      invariant exists x :: 0 <= x < y && s[members[x]].timestamp == m
      invariant forall x :: 0 <= x < y ==> m <= s[members[x]].timestamp
    {
      if s[members[y]].timestamp < m {
        m := s[members[y]].timestamp;
      }
    }
  }

  /** `df.loc[subset.index, column] = True`. */
  method MarkAll(column: array<bool>, members: seq<int>)
    requires forall x :: 0 <= x < |members| ==> 0 <= members[x] < column.Length
    modifies column
    ensures forall j :: 0 <= j < column.Length ==> column[j] == (old(column[j]) || j in members)
  {
    for m := 0 to |members|
      invariant forall j :: 0 <= j < column.Length ==> column[j] == (old(column[j]) || j in members[..m])
    {
      assert members[..m + 1] == members[..m] + [members[m]];
      column[members[m]] := true;
    }
    assert members[..|members|] == members;
  }

  /** In a sorted batch the group's window rows are exactly anchor `a`'s `InWindow` rows. */
  lemma GroupWindow(s: seq<Event>, lo: int, hi: int, a: int, span: int, members: seq<int>)
    requires Sorted(s) && 0 <= lo <= a < hi <= |s|
    requires lo == 0 || s[lo - 1].operatorId != s[lo].operatorId
    requires hi == |s| || s[hi].operatorId != s[lo].operatorId
    requires forall j :: lo <= j < hi ==> s[j].operatorId == s[lo].operatorId
    requires forall j :: j in members <==> lo <= j < hi && Within(s, a, j, span)
    ensures forall j :: 0 <= j < |s| ==> (j in members <==> InWindow(s, a, j, span))
  {
    OperatorRun(s, lo, hi);
  }

  /** One anchor of the DEVICE_HOP loop: mark its window when the window spans three devices. */
  method MarkHopWindow(s: seq<Event>, lo: int, hi: int, a: int, marks: array<bool>)
    requires Sorted(s) && 0 <= lo <= a < hi <= |s| && marks.Length == |s|
    requires lo == 0 || s[lo - 1].operatorId != s[lo].operatorId
    requires hi == |s| || s[hi].operatorId != s[lo].operatorId
    requires forall j :: lo <= j < hi ==> s[j].operatorId == s[lo].operatorId
    modifies marks
    ensures forall i :: 0 <= i < |s| ==>
      marks[i] == (old(marks[i]) || (HopAnchor(s, a) && InWindow(s, a, i, HOP_WINDOW)))
  {
    var members := WindowMembers(s, lo, hi, a, HOP_WINDOW);
    GroupWindow(s, lo, hi, a, HOP_WINDOW, members);
    var n := DistinctDevices(s, members);
    assert (set x | 0 <= x < |members| :: s[members[x]].deviceId) == WindowDevices(s, a);
    if n >= HOP_DEVICES {
      MarkAll(marks, members);
    }
  }

  /** One anchor of the SHIFT_VIOL loop: mark its window when the window spans over fourteen hours. */
  method MarkShiftWindow(s: seq<Event>, lo: int, hi: int, a: int, marks: array<bool>)
    requires Sorted(s) && 0 <= lo <= a < hi <= |s| && marks.Length == |s|
    requires lo == 0 || s[lo - 1].operatorId != s[lo].operatorId
    requires hi == |s| || s[hi].operatorId != s[lo].operatorId
    requires forall j :: lo <= j < hi ==> s[j].operatorId == s[lo].operatorId
    modifies marks
    ensures forall i :: 0 <= i < |s| ==>
      marks[i] == (old(marks[i]) || (ShiftAnchor(s, a) && InWindow(s, a, i, SHIFT_WINDOW)))
  {
    var members := WindowMembers(s, lo, hi, a, SHIFT_WINDOW);
    GroupWindow(s, lo, hi, a, SHIFT_WINDOW, members);
    assert a in members;
    var earliest := Earliest(s, members);
    if s[a].timestamp - earliest > SHIFT_SPAN {
      var x :| 0 <= x < |members| && s[members[x]].timestamp == earliest;
      assert InWindow(s, a, members[x], SHIFT_WINDOW);
      MarkAll(marks, members);
    } else {
      forall j | 0 <= j < |s| && InWindow(s, a, j, SHIFT_WINDOW)
        ensures s[a].timestamp - s[j].timestamp <= SHIFT_SPAN
      {
        assert j in members;
      }
    }
  }

  /** The DEVICE_HOP column: for each group, for each anchor, mark its window when it spans three devices. */
  method DeviceHopColumn(s: seq<Event>) returns (column: seq<bool>)
    requires Sorted(s)
    ensures |column| == |s|
    ensures forall i :: 0 <= i < |s| ==> column[i] == DeviceHopAt(s, i)
  {
    var marks := new bool[|s|](_ => false);
    var lo := 0;
    while lo < |s|
      invariant 0 <= lo <= |s|
      invariant lo == 0 || lo == |s| || s[lo - 1].operatorId != s[lo].operatorId
      invariant forall i :: 0 <= i < |s| ==>
        (marks[i] <==> exists b :: 0 <= b < lo && HopAnchor(s, b) && InWindow(s, b, i, HOP_WINDOW))
    {
      var hi := GroupEnd(s, lo);
      for a := lo to hi
        invariant forall i :: 0 <= i < |s| ==>
          (marks[i] <==> exists b :: 0 <= b < a && HopAnchor(s, b) && InWindow(s, b, i, HOP_WINDOW))
      {
        MarkHopWindow(s, lo, hi, a, marks);
      }
      lo := hi;
    }
    column := marks[..];
  }

  /** The SHIFT_VIOL column: for each group, for each anchor, mark its 24-hour window when it spans over fourteen hours. */
  method ShiftViolColumn(s: seq<Event>) returns (column: seq<bool>)
    requires Sorted(s)
    ensures |column| == |s|
    ensures forall i :: 0 <= i < |s| ==> column[i] == ShiftViolAt(s, i)
  {
    var marks := new bool[|s|](_ => false);
    var lo := 0;
    while lo < |s|
      invariant 0 <= lo <= |s|
      invariant lo == 0 || lo == |s| || s[lo - 1].operatorId != s[lo].operatorId
      invariant forall i :: 0 <= i < |s| ==>
        (marks[i] <==> exists b :: 0 <= b < lo && ShiftAnchor(s, b) && InWindow(s, b, i, SHIFT_WINDOW))
    {
      var hi := GroupEnd(s, lo);
      for a := lo to hi
        invariant forall i :: 0 <= i < |s| ==>
          (marks[i] <==> exists b :: 0 <= b < a && ShiftAnchor(s, b) && InWindow(s, b, i, SHIFT_WINDOW))
      {
        MarkShiftWindow(s, lo, hi, a, marks);
      }
      lo := hi;
    }
    column := marks[..];
  }

  /** `compute_flags(df)` on the validated batch. */
  method ComputeFlags(batch: seq<Event>) returns (rows: seq<FlaggedEvent>)
    ensures rows == FlagBatch(batch)
  {
    var s := SortEvents(batch);
    var hop := DeviceHopColumn(s);
    var shift := ShiftViolColumn(s);
    rows := seq(|s|, i requires 0 <= i < |s| == |hop| == |shift| =>
      var rapid := RapidAt(s, i);
      var loc := LocConflictAt(s, i);
      var load := LoadDevAt(s, i);
      var coloc := ColocAt(s, i);
      FlaggedEvent(i + 1, s[i], rapid, loc, hop[i], shift[i], load, coloc,
                   rapid || loc || hop[i] || shift[i] || load || coloc));
  }
}
