/**
 * What the flag columns of `compute_flags` mean for the uploaded batch.
 */
module FlagProperties {
  import opened Text
  import opened Clock
  import opened Schemas
  import opened Sorting
  import opened FlagRules

  /** The result holds exactly the input rows, sorted by (Operator_ID, Timestamp) and numbered 1..N. */
  lemma FlagBatchShape(batch: seq<Event>)
    ensures |FlagBatch(batch)| == |batch|
    ensures EventsOf(FlagBatch(batch)) == SortEvents(batch)
    ensures multiset(EventsOf(FlagBatch(batch))) == multiset(batch)
    ensures Sorted(EventsOf(FlagBatch(batch)))
    ensures forall i :: 0 <= i < |batch| ==> FlagBatch(batch)[i].eventId == i + 1
  {
    var r := FlagBatch(batch);
    var s := SortEvents(batch);
    assert forall i :: 0 <= i < |s| ==> EventsOf(r)[i] == s[i];
  }

  /** Within one operator a sorted batch is in timestamp order. */
  lemma SameOperatorOrdered(s: seq<Event>, i: int, j: int)
    requires Sorted(s)
    requires 0 <= i < j < |s| && s[i].operatorId == s[j].operatorId
    ensures s[i].timestamp <= s[j].timestamp
  {
    assert KeyLe(s[i], s[j]);
    LessIrreflexive(s[i].operatorId);
  }

  /**
   * The group-wise shift picks the operator's latest test at or before this one:
   * with no predecessor the row is the operator's earliest, and otherwise no
   * other test of the operator falls strictly between the two.
   */
  lemma PrevIsLatestEarlier(s: seq<Event>, i: int)
    requires Sorted(s) && 0 <= i < |s|
    ensures Prev(s, i).None? ==>
      forall j :: 0 <= j < |s| && s[j].operatorId == s[i].operatorId ==> s[i].timestamp <= s[j].timestamp
    ensures Prev(s, i).Some? ==>
      Prev(s, i).value.operatorId == s[i].operatorId &&
      Prev(s, i).value.timestamp <= s[i].timestamp &&
      forall j :: 0 <= j < |s| && j != i && j != i - 1 && s[j].operatorId == s[i].operatorId ==>
        s[j].timestamp <= Prev(s, i).value.timestamp || s[i].timestamp <= s[j].timestamp
  {
    forall j | 0 <= j < |s| && s[j].operatorId == s[i].operatorId
      ensures j < i ==> s[j].timestamp <= s[i].timestamp
      ensures i < j ==> s[i].timestamp <= s[j].timestamp
      ensures j < i ==> j == i - 1 || s[i - 1].operatorId == s[i].operatorId
    {
      if j < i {
        SameOperatorOrdered(s, j, i);
        if j < i - 1 && s[i - 1].operatorId != s[i].operatorId {
          assert KeyLe(s[j], s[i - 1]) && KeyLe(s[i - 1], s[i]);
          LessAsymmetric(s[i].operatorId, s[i - 1].operatorId);
        }
      } else if i < j {
        SameOperatorOrdered(s, i, j);
      }
    }
    if Prev(s, i).Some? {
      SameOperatorOrdered(s, i - 1, i);
      forall j | 0 <= j < i - 1 && s[j].operatorId == s[i].operatorId
        ensures s[j].timestamp <= s[i - 1].timestamp
      {
        SameOperatorOrdered(s, j, i - 1);
      }
    }
  }

  /** The first row of each operator's run in the sorted output is never RAPID nor LOC_CONFLICT. */
  lemma RunStartClean(batch: seq<Event>, i: int)
    requires 0 <= i < |FlagBatch(batch)|
    requires i == 0 || FlagBatch(batch)[i - 1].event.operatorId != FlagBatch(batch)[i].event.operatorId
    ensures !FlagBatch(batch)[i].rapid && !FlagBatch(batch)[i].locConflict
  {
    var s := SortEvents(batch);
    if i > 0 {
      assert FlagBatch(batch)[i - 1].event == s[i - 1];
    }
  }

  /** An operator's strictly earliest test is never RAPID nor LOC_CONFLICT. */
  lemma FirstTestClean(batch: seq<Event>, i: int)
    requires 0 <= i < |FlagBatch(batch)|
    requires forall j ::
      (0 <= j < |FlagBatch(batch)| && j != i &&
       FlagBatch(batch)[j].event.operatorId == FlagBatch(batch)[i].event.operatorId) ==>
      FlagBatch(batch)[j].event.timestamp > FlagBatch(batch)[i].event.timestamp
    ensures !FlagBatch(batch)[i].rapid && !FlagBatch(batch)[i].locConflict
  {
    var s := SortEvents(batch);
    var r := FlagBatch(batch);
    if i > 0 && r[i - 1].event.operatorId == r[i].event.operatorId {
      assert r[i - 1].event == s[i - 1] && r[i].event == s[i];
      SameOperatorOrdered(s, i - 1, i);
      assert false;
    }
    RunStartClean(batch, i);
  }

  /**
   * In a sorted batch, an earlier row `j` of the operator of row `i` means
   * the row just before `i` is that operator's too, and is no earlier than `j`.
   */
  lemma RunBetween(s: seq<Event>, j: int, i: int)
    requires Sorted(s) && 0 <= j < i < |s|
    requires s[j].operatorId == s[i].operatorId
    ensures s[i - 1].operatorId == s[i].operatorId
    ensures s[j].timestamp <= s[i - 1].timestamp
  {
    if j < i - 1 {
      assert KeyLe(s[j], s[i - 1]) && KeyLe(s[i - 1], s[i]);
      if s[i - 1].operatorId != s[i].operatorId {
        LessAsymmetric(s[i].operatorId, s[i - 1].operatorId);
        assert false;
      }
      SameOperatorOrdered(s, j, i - 1);
    }
  }

  /**
   * RAPID is `Time_Diff < 1` against the row just before in the output:
   * flagged exactly when that row is the same operator's and under a minute
   * earlier, a repeat at the same instant included.
   */
  lemma RapidIffPrevious(batch: seq<Event>, i: int)
    requires 0 <= i < |FlagBatch(batch)|
    ensures FlagBatch(batch)[i].rapid <==>
      0 < i && FlagBatch(batch)[i - 1].event.operatorId == FlagBatch(batch)[i].event.operatorId &&
      FlagBatch(batch)[i].event.timestamp - FlagBatch(batch)[i - 1].event.timestamp < RAPID_GAP
  {
    var s := SortEvents(batch);
    var r := FlagBatch(batch);
    assert r[i].event == s[i];
    if i > 0 {
      assert r[i - 1].event == s[i - 1];
    }
  }

  /**
   * RAPID ties back to the operator's other tests: a row is RAPID exactly
   * when some row of the same operator before it in the output is under a
   * minute earlier, and any strictly earlier test under a minute before
   * makes it RAPID.
   */
  lemma RapidMeansCloseEarlier(batch: seq<Event>, i: int)
    requires 0 <= i < |FlagBatch(batch)|
    ensures FlagBatch(batch)[i].rapid <==>
      exists j :: 0 <= j < i &&
        FlagBatch(batch)[j].event.operatorId == FlagBatch(batch)[i].event.operatorId &&
        FlagBatch(batch)[i].event.timestamp - FlagBatch(batch)[j].event.timestamp < RAPID_GAP
    ensures forall j ::
      (0 <= j < |FlagBatch(batch)| &&
       FlagBatch(batch)[j].event.operatorId == FlagBatch(batch)[i].event.operatorId &&
       FlagBatch(batch)[j].event.timestamp < FlagBatch(batch)[i].event.timestamp &&
       FlagBatch(batch)[i].event.timestamp - FlagBatch(batch)[j].event.timestamp < RAPID_GAP) ==>
      FlagBatch(batch)[i].rapid
  {
    if FlagBatch(batch)[i].rapid {
      RapidHasCloseEarlier(batch, i);
    }
    forall j | 0 <= j < |FlagBatch(batch)| &&
        (j < i || FlagBatch(batch)[j].event.timestamp < FlagBatch(batch)[i].event.timestamp) &&
        FlagBatch(batch)[j].event.operatorId == FlagBatch(batch)[i].event.operatorId &&
        FlagBatch(batch)[i].event.timestamp - FlagBatch(batch)[j].event.timestamp < RAPID_GAP
      ensures FlagBatch(batch)[i].rapid
    {
      CloseEarlierMakesRapid(batch, i, j);
    }
  }

  lemma RapidHasCloseEarlier(batch: seq<Event>, i: int)
    requires 0 <= i < |FlagBatch(batch)|
    requires FlagBatch(batch)[i].rapid
    ensures 0 < i && FlagBatch(batch)[i - 1].event.operatorId == FlagBatch(batch)[i].event.operatorId &&
      0 <= FlagBatch(batch)[i].event.timestamp - FlagBatch(batch)[i - 1].event.timestamp < RAPID_GAP
  {
    var s := SortEvents(batch);
    var r := FlagBatch(batch);
    assert r[i].event == s[i] && r[i - 1].event == s[i - 1];
    SameOperatorOrdered(s, i - 1, i);
  }

  /**
   * A test of the same operator that comes before row `i` in the output, or
   * is strictly earlier, and is under a minute before it makes row `i` RAPID.
   */
  lemma CloseEarlierMakesRapid(batch: seq<Event>, i: int, j: int)
    requires 0 <= i < |FlagBatch(batch)| && 0 <= j < |FlagBatch(batch)|
    requires j < i || FlagBatch(batch)[j].event.timestamp < FlagBatch(batch)[i].event.timestamp
    requires FlagBatch(batch)[j].event.operatorId == FlagBatch(batch)[i].event.operatorId
    requires FlagBatch(batch)[i].event.timestamp - FlagBatch(batch)[j].event.timestamp < RAPID_GAP
    ensures FlagBatch(batch)[i].rapid
  {
    var s := SortEvents(batch);
    var r := FlagBatch(batch);
    assert r[i].event == s[i] && r[j].event == s[j];
    if i <= j {
      if i < j {
        SameOperatorOrdered(s, i, j);
      }
      assert false;
    }
    RunBetween(s, j, i);
    assert r[i - 1].event == s[i - 1];
  }

  /** Two tests of one operator at the same instant: the second in Event_ID order is RAPID. */
  lemma RepeatIsRapid(batch: seq<Event>, j: int, i: int)
    requires 0 <= j < i < |FlagBatch(batch)|
    requires FlagBatch(batch)[j].event.operatorId == FlagBatch(batch)[i].event.operatorId
    requires FlagBatch(batch)[j].event.timestamp == FlagBatch(batch)[i].event.timestamp
    ensures FlagBatch(batch)[i].rapid
  {
    CloseEarlierMakesRapid(batch, i, j);
  }

  /**
   * LOC_CONFLICT compares a row with the row just before it in the output
   * when that row is the same operator's: flagged exactly when the location
   * differs and the gap is at most five minutes. The earlier row is the
   * operator's latest test at or before this one.
   */
  lemma LocConflictIffPrevious(batch: seq<Event>, i: int)
    requires 0 <= i < |FlagBatch(batch)|
    ensures var r := FlagBatch(batch);
      r[i].locConflict <==>
        i > 0 && r[i - 1].event.operatorId == r[i].event.operatorId &&
        r[i - 1].event.location != r[i].event.location &&
        r[i].event.timestamp - r[i - 1].event.timestamp <= LOC_GAP
    ensures var r := FlagBatch(batch);
      i > 0 && r[i - 1].event.operatorId == r[i].event.operatorId ==>
        r[i - 1].event.timestamp <= r[i].event.timestamp &&
        forall j :: 0 <= j < |r| && j != i && j != i - 1 && r[j].event.operatorId == r[i].event.operatorId ==>
          r[j].event.timestamp <= r[i - 1].event.timestamp || r[i].event.timestamp <= r[j].event.timestamp
  {
    var s := SortEvents(batch);
    var r := FlagBatch(batch);
    PrevIsLatestEarlier(s, i);
    if i > 0 {
      assert r[i - 1].event == s[i - 1];
    }
    forall j | 0 <= j < |r| ensures r[j].event == s[j] { }
  }

  /** Three devices inside one operator's ten-minute window flag all three tests. */
  lemma DeviceHopScenario(batch: seq<Event>, a: int, x: int, y: int, z: int)
    requires 0 <= a < |FlagBatch(batch)| && 0 <= x < |FlagBatch(batch)|
    requires 0 <= y < |FlagBatch(batch)| && 0 <= z < |FlagBatch(batch)|
    requires forall k :: k in {x, y, z} ==>
      FlagBatch(batch)[k].event.operatorId == FlagBatch(batch)[a].event.operatorId &&
      FlagBatch(batch)[a].event.timestamp - HOP_WINDOW <= FlagBatch(batch)[k].event.timestamp <= FlagBatch(batch)[a].event.timestamp
    requires FlagBatch(batch)[x].event.deviceId != FlagBatch(batch)[y].event.deviceId
    requires FlagBatch(batch)[y].event.deviceId != FlagBatch(batch)[z].event.deviceId
    requires FlagBatch(batch)[x].event.deviceId != FlagBatch(batch)[z].event.deviceId
    ensures FlagBatch(batch)[x].deviceHop && FlagBatch(batch)[y].deviceHop && FlagBatch(batch)[z].deviceHop
  {
    var s := SortEvents(batch);
    var r := FlagBatch(batch);
    assert r[a].event == s[a] && r[x].event == s[x] && r[y].event == s[y] && r[z].event == s[z];
    assert InWindow(s, a, x, HOP_WINDOW) && InWindow(s, a, y, HOP_WINDOW) && InWindow(s, a, z, HOP_WINDOW);
    var three := {s[x].deviceId, s[y].deviceId, s[z].deviceId};
    ThreeElements(s[x].deviceId, s[y].deviceId, s[z].deviceId);
    assert three <= WindowDevices(s, a);
    SubsetCardinality(three, WindowDevices(s, a));
    assert HopAnchor(s, a);
  }

  lemma ThreeElements<T>(a: T, b: T, c: T)
    requires a != b && b != c && a != c
    ensures |{a, b, c}| == 3
  {
    assert {a, b, c} == {a, b} + {c};
  }

  lemma SubsetCardinality<T>(a: set<T>, b: set<T>)
    requires a <= b
    ensures |a| <= |b|
  {
    assert b == a + (b - a);
  }

  /** The distinct devices operator `op` used anywhere in the batch. */
  function OperatorDevices(batch: seq<Event>, op: string): set<string>
  {
    set e | e in batch && e.operatorId == op :: e.deviceId
  }

  /** DEVICE_HOP is only ever raised for an operator who used at least three devices. */
  lemma DeviceHopNeedsThreeDevices(batch: seq<Event>, i: int)
    requires 0 <= i < |FlagBatch(batch)|
    requires FlagBatch(batch)[i].deviceHop
    ensures |OperatorDevices(batch, FlagBatch(batch)[i].event.operatorId)| >= HOP_DEVICES
  {
    var s := SortEvents(batch);
    var a :| 0 <= a < |s| && HopAnchor(s, a) && InWindow(s, a, i, HOP_WINDOW);
    var op := s[i].operatorId;
    forall d | d in WindowDevices(s, a) ensures d in OperatorDevices(batch, op) {
      var j :| 0 <= j < |s| && InWindow(s, a, j, HOP_WINDOW) && s[j].deviceId == d;
      assert s[j] in multiset(s);
      assert s[j] in batch;
    }
    SubsetCardinality(WindowDevices(s, a), OperatorDevices(batch, op));
  }

  /** An operator whose tests all lie within fourteen hours of each other is never SHIFT_VIOL. */
  lemma ShiftWithinFourteenHours(batch: seq<Event>, op: string)
    requires forall e, f :: e in batch && f in batch && e.operatorId == op && f.operatorId == op ==>
      f.timestamp - e.timestamp <= SHIFT_SPAN
    ensures forall i :: 0 <= i < |FlagBatch(batch)| && FlagBatch(batch)[i].event.operatorId == op ==>
      !FlagBatch(batch)[i].shiftViol
  {
    var s := SortEvents(batch);
    var r := FlagBatch(batch);
    forall i, a, j | 0 <= i < |r| && r[i].event.operatorId == op && 0 <= a < |s| &&
        InWindow(s, a, i, SHIFT_WINDOW) && 0 <= j < |s| && InWindow(s, a, j, SHIFT_WINDOW)
      ensures s[a].timestamp - s[j].timestamp <= SHIFT_SPAN
    {
      assert r[i].event == s[i];
      assert s[a] in multiset(s) && s[j] in multiset(s);
    }
  }

  /** Two tests of an operator more than fourteen but at most 24 hours apart are both SHIFT_VIOL. */
  lemma ShiftGapFlagsBoth(batch: seq<Event>, x: int, y: int)
    requires 0 <= x < |FlagBatch(batch)| && 0 <= y < |FlagBatch(batch)|
    requires FlagBatch(batch)[x].event.operatorId == FlagBatch(batch)[y].event.operatorId
    requires SHIFT_SPAN < FlagBatch(batch)[y].event.timestamp - FlagBatch(batch)[x].event.timestamp <= SHIFT_WINDOW
    ensures FlagBatch(batch)[x].shiftViol && FlagBatch(batch)[y].shiftViol
  {
    var s := SortEvents(batch);
    var r := FlagBatch(batch);
    assert r[x].event == s[x] && r[y].event == s[y];
    assert InWindow(s, y, x, SHIFT_WINDOW) && InWindow(s, y, y, SHIFT_WINDOW);
    assert ShiftAnchor(s, y);
  }

  /** Three operators on one device in one clock hour make every test of that bucket COLOC. */
  lemma ColocScenario(batch: seq<Event>, x: int, y: int, z: int, i: int)
    requires 0 <= x < |FlagBatch(batch)| && 0 <= y < |FlagBatch(batch)|
    requires 0 <= z < |FlagBatch(batch)| && 0 <= i < |FlagBatch(batch)|
    requires forall k :: k in {x, y, z} ==>
      FlagBatch(batch)[k].event.deviceId == FlagBatch(batch)[i].event.deviceId &&
      HourFloor(FlagBatch(batch)[k].event.timestamp) == HourFloor(FlagBatch(batch)[i].event.timestamp)
    requires FlagBatch(batch)[x].event.operatorId != FlagBatch(batch)[y].event.operatorId
    requires FlagBatch(batch)[y].event.operatorId != FlagBatch(batch)[z].event.operatorId
    requires FlagBatch(batch)[x].event.operatorId != FlagBatch(batch)[z].event.operatorId
    ensures FlagBatch(batch)[i].coloc
  {
    var s := SortEvents(batch);
    var r := FlagBatch(batch);
    assert r[i].event == s[i] && r[x].event == s[x] && r[y].event == s[y] && r[z].event == s[z];
    var users := BucketUsers(s, s[i].deviceId, HourFloor(s[i].timestamp));
    var three := {s[x].operatorId, s[y].operatorId, s[z].operatorId};
    ThreeElements(s[x].operatorId, s[y].operatorId, s[z].operatorId);
    assert three <= users;
    SubsetCardinality(three, users);
  }

  /** The bucket flags are shared: rows of one bucket agree on LOAD_DEV, respectively COLOC. */
  lemma BucketFlagsShared(batch: seq<Event>, x: int, y: int)
    requires 0 <= x < |FlagBatch(batch)| && 0 <= y < |FlagBatch(batch)|
    requires HourFloor(FlagBatch(batch)[x].event.timestamp) == HourFloor(FlagBatch(batch)[y].event.timestamp)
    ensures FlagBatch(batch)[x].event.operatorId == FlagBatch(batch)[y].event.operatorId ==>
      FlagBatch(batch)[x].loadDev == FlagBatch(batch)[y].loadDev
    ensures FlagBatch(batch)[x].event.deviceId == FlagBatch(batch)[y].event.deviceId ==>
      FlagBatch(batch)[x].coloc == FlagBatch(batch)[y].coloc
  {
    var s := SortEvents(batch);
    assert FlagBatch(batch)[x].event == s[x] && FlagBatch(batch)[y].event == s[y];
  }

  lemma {:induction false} BucketLoadInsert(x: Event, t: seq<Event>, op: string, hour: Instant)
    ensures BucketLoad(Insert(x, t), op, hour) == BucketLoad([x] + t, op, hour)
  {
    if t == [] || KeyLe(x, t[0]) {
    } else {
      BucketLoadInsert(x, t[1..], op, hour);
      assert ([t[0]] + Insert(x, t[1..]))[1..] == Insert(x, t[1..]);
      assert ([x] + t[1..])[1..] == t[1..];
      assert ([x] + t)[1..] == t;
      assert t == [t[0]] + t[1..];
    }
  }

  /** LOAD_DEV counts the whole batch: the bucket sizes do not depend on the row order. */
  lemma {:induction false} BucketLoadOfSorted(batch: seq<Event>, op: string, hour: Instant)
    ensures BucketLoad(SortEvents(batch), op, hour) == BucketLoad(batch, op, hour)
  {
    if batch != [] {
      BucketLoadOfSorted(batch[1..], op, hour);
      BucketLoadInsert(batch[0], SortEvents(batch[1..]), op, hour);
      assert ([batch[0]] + SortEvents(batch[1..]))[1..] == SortEvents(batch[1..]);
    }
  }

  /** FLAGGED is raised exactly when at least one of the six heuristics is. */
  lemma FlaggedIsAnyFlag(batch: seq<Event>, i: int)
    requires 0 <= i < |FlagBatch(batch)|
    ensures FlagBatch(batch)[i].flagged <==> exists f :: Raised(FlagBatch(batch)[i], f)
  {
    var r := FlagBatch(batch)[i];
    if r.flagged {
      var f :=
        if r.rapid then Rapid else if r.locConflict then LocConflict
        else if r.deviceHop then DeviceHop else if r.shiftViol then ShiftViol
        else if r.loadDev then LoadDev else Coloc;
      assert Raised(r, f);
    }
  }
}
