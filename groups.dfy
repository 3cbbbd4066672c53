/**
 * The pandas vocabulary `build_summary` is written in: `groupby` keys in
 * ascending order, the rows of one group, and boolean-column `sum()`s.
 */
module Groups {
  import opened Wrappers
  import opened Text
  import opened Schemas

  /** The column a `groupby` splits on. */
  datatype Column = OperatorColumn | DeviceColumn

  function KeyOf(r: FlaggedEvent, col: Column): string
  {
    match col
    case OperatorColumn => r.event.operatorId
    case DeviceColumn => r.event.deviceId
  }

  /** A row counts towards `sel`: every row for `len()`, the rows raising `f` for `[f].sum()`. */
  predicate Selected(r: FlaggedEvent, sel: Option<Flag>)
  {
    sel.None? || Raised(r, sel.value)
  }

  /** `len(rows)` when `sel` is None, `rows[f].sum()` when it is `Some(f)`. */
  function Tally(rows: seq<FlaggedEvent>, sel: Option<Flag>): (n: nat)
    ensures n <= |rows|
    ensures sel.None? ==> n == |rows|
  {
    if rows == [] then 0
    else (if Selected(rows[0], sel) then 1 else 0) + Tally(rows[1..], sel)
  }

  /** The rows of the group with key `k`, in frame order. */
  function Group(rows: seq<FlaggedEvent>, col: Column, k: string): (g: seq<FlaggedEvent>)
    ensures |g| <= |rows|
    ensures forall r :: r in g <==> r in rows && KeyOf(r, col) == k
  {
    if rows == [] then []
    else (if KeyOf(rows[0], col) == k then [rows[0]] else []) + Group(rows[1..], col, k)
  }

  /** The distinct values of column `col`. */
  function KeySet(rows: seq<FlaggedEvent>, col: Column): set<string>
  {
    set r | r in rows :: KeyOf(r, col)
  }

  /** Strictly ascending under Python's string order, hence free of repeats. */
  ghost predicate Ascending(ks: seq<string>)
  {
    forall i, j :: 0 <= i < j < |ks| ==> Less(ks[i], ks[j])
  }

  /** Add `k` to an ascending key list unless it is there already. */
  function InsertKey(k: string, ks: seq<string>): (r: seq<string>)
    ensures forall x :: x in r <==> x == k || x in ks
  {
    if ks == [] then [k]
    else if k == ks[0] then ks
    else if Less(k, ks[0]) then [k] + ks
    else [ks[0]] + InsertKey(k, ks[1..])
  }

  lemma {:induction false} InsertKeyAscending(k: string, ks: seq<string>)
    requires Ascending(ks)
    ensures Ascending(InsertKey(k, ks))
  {
    var r := InsertKey(k, ks);
    if ks == [] || k == ks[0] {
    } else if Less(k, ks[0]) {
      forall j | 1 <= j < |r| ensures Less(r[0], r[j]) {
        if j > 1 { LessTransitive(k, ks[0], ks[j - 1]); }
      }
    } else {
      LessTotal(k, ks[0]);
      InsertKeyAscending(k, ks[1..]);
      forall j | 1 <= j < |r| ensures Less(r[0], r[j]) {
        assert r[j] in InsertKey(k, ks[1..]);
        if r[j] != k {
          var x :| 0 <= x < |ks[1..]| && ks[1..][x] == r[j];
          assert ks[x + 1] == r[j];
        }
      }
    }
  }

  /** The group keys of `groupby(column)`: each distinct value once, in ascending order. */
  function Keys(rows: seq<FlaggedEvent>, col: Column): (ks: seq<string>)
    ensures Ascending(ks)
    ensures forall k :: k in ks <==> k in KeySet(rows, col)
  {
    if rows == [] then []
    else
      var rest := Keys(rows[1..], col);
      InsertKeyAscending(KeyOf(rows[0], col), rest);
      assert forall r :: r in rows <==> r == rows[0] || r in rows[1..];
      InsertKey(KeyOf(rows[0], col), rest)
  }

  /** How often `k` occurs in `ks`. */
  function Occurrences(ks: seq<string>, k: string): nat
  {
    if ks == [] then 0 else (if ks[0] == k then 1 else 0) + Occurrences(ks[1..], k)
  }

  lemma {:induction false} OccursOnce(ks: seq<string>, k: string)
    requires Ascending(ks)
    ensures Occurrences(ks, k) == if k in ks then 1 else 0
  {
    if ks != [] {
      OccursOnce(ks[1..], k);
      if ks[0] == k {
        forall j | 1 <= j < |ks| ensures ks[j] != k {
          assert Less(ks[0], ks[j]);
          LessIrreflexive(k);
        }
      }
    }
  }

  /** The group tallies summed over the key list `ks`. */
  function SumTally(rows: seq<FlaggedEvent>, col: Column, ks: seq<string>, sel: Option<Flag>): nat
  {
    if ks == [] then 0 else Tally(Group(rows, col, ks[0]), sel) + SumTally(rows, col, ks[1..], sel)
  }

  lemma {:induction false} SumTallySplit(rows: seq<FlaggedEvent>, col: Column, ks: seq<string>, sel: Option<Flag>)
    requires rows != []
    ensures SumTally(rows, col, ks, sel) ==
      (if Selected(rows[0], sel) then Occurrences(ks, KeyOf(rows[0], col)) else 0) + SumTally(rows[1..], col, ks, sel)
  {
    if ks != [] {
      SumTallySplit(rows, col, ks[1..], sel);
      var rest := Group(rows[1..], col, ks[0]);
      if KeyOf(rows[0], col) == ks[0] {
        assert Group(rows, col, ks[0]) == [rows[0]] + rest;
        assert ([rows[0]] + rest)[1..] == rest;
        assert Tally(Group(rows, col, ks[0]), sel) == (if Selected(rows[0], sel) then 1 else 0) + Tally(rest, sel);
      } else {
        assert Group(rows, col, ks[0]) == rest;
      }
    }
  }

  /**
   * Splitting a frame into its groups loses and duplicates nothing: over a
   * list holding every key once, the group tallies add up to the frame's.
   */
  lemma {:induction false} SumTallyPartition(rows: seq<FlaggedEvent>, col: Column, ks: seq<string>, sel: Option<Flag>)
    requires Ascending(ks)
    requires forall r :: r in rows ==> KeyOf(r, col) in ks
    ensures SumTally(rows, col, ks, sel) == Tally(rows, sel)
  {
    if rows == [] {
      SumTallyEmpty(col, ks, sel);
    } else {
      SumTallySplit(rows, col, ks, sel);
      OccursOnce(ks, KeyOf(rows[0], col));
      SumTallyPartition(rows[1..], col, ks, sel);
    }
  }

  lemma {:induction false} SumTallyEmpty(col: Column, ks: seq<string>, sel: Option<Flag>)
    ensures SumTally([], col, ks, sel) == 0
  {
    if ks != [] { SumTallyEmpty(col, ks[1..], sel); }
  }

  /** A group of an existing key is never empty. */
  lemma GroupNonEmpty(rows: seq<FlaggedEvent>, col: Column, k: string)
    requires k in KeySet(rows, col)
    ensures |Group(rows, col, k)| >= 1
  {
    var r :| r in rows && KeyOf(r, col) == k;
    assert r in Group(rows, col, k);
  }

  lemma {:induction false} SumTallyAppend(rows: seq<FlaggedEvent>, col: Column, ks: seq<string>, k: string, sel: Option<Flag>)
    ensures SumTally(rows, col, ks + [k], sel) == SumTally(rows, col, ks, sel) + Tally(Group(rows, col, k), sel)
  {
    if ks != [] {
      assert (ks + [k])[1..] == ks[1..] + [k];
      SumTallyAppend(rows, col, ks[1..], k, sel);
    }
  }

  /** A group has no more distinct values in a column than it has rows. */
  lemma {:induction false} KeySetBound(rows: seq<FlaggedEvent>, col: Column)
    ensures |KeySet(rows, col)| <= |rows|
    ensures rows != [] ==> |KeySet(rows, col)| >= 1
  {
    if rows != [] {
      KeySetBound(rows[1..], col);
      assert KeySet(rows, col) == {KeyOf(rows[0], col)} + KeySet(rows[1..], col);
    }
  }
}
