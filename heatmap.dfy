/**
 * `build_hourly_matrix`: tests per operator and hour of day, with a column
 * for every hour that occurs anywhere in the frame and zeros filled in.
 */
module Heatmap {
  import opened Wrappers
  import opened Text
  import opened Clock
  import opened Schemas
  import opened Groups

  /** `str(h)` for the hour of day of the row's timestamp. */
  function HourLabel(r: FlaggedEvent): string
  {
    NatToString(HourOfDay(r.event.timestamp))
  }

  /** The columns of the unstacked table: every hour of day some row falls in. */
  function HourLabels(rows: seq<FlaggedEvent>): set<string>
  {
    set r | r in rows :: HourLabel(r)
  }

  /** The size of group (`op`, hour keyed `hourKey`); zero when no row has it. */
  function Cell(rows: seq<FlaggedEvent>, op: string, hourKey: string): nat
  {
    if rows == [] then 0
    else (if rows[0].event.operatorId == op && HourLabel(rows[0]) == hourKey then 1 else 0) + Cell(rows[1..], op, hourKey)
  }

  /** `{str(op): {str(h): count for h in columns} for op in index}`. */
  function HourlyMatrix(rows: seq<FlaggedEvent>): map<string, map<string, nat>>
  {
    map op | op in KeySet(rows, OperatorColumn) ::
      map hourKey | hourKey in HourLabels(rows) :: Cell(rows, op, hourKey)
  }

  /** The count a table row gives hours 0 to `n - 1`, an absent hour counting zero. */
  function HourSum(row: map<string, nat>, n: nat): nat
  {
    if n == 0 then 0
    else HourSum(row, n - 1) + (if NatToString(n - 1) in row then row[NatToString(n - 1)] else 0)
  }

  /** All tests in one table row. */
  function RowTotal(row: map<string, nat>): nat
  {
    HourSum(row, 24)
  }

  /** The hour labels are the decimal renderings of hours 0 to 23, and they name distinct hours. */
  lemma HourLabelIff(h: nat, r: FlaggedEvent)
    ensures HourLabel(r) == NatToString(h) <==> HourOfDay(r.event.timestamp) == h
  {
    if HourLabel(r) == NatToString(h) {
      NatToStringRoundTrip(h);
      NatToStringRoundTrip(HourOfDay(r.event.timestamp));
    }
  }

  /** One row per operator, one column per hour present, each column an hour of day. */
  lemma MatrixShape(rows: seq<FlaggedEvent>)
    ensures HourlyMatrix(rows).Keys == KeySet(rows, OperatorColumn)
    ensures forall op :: op in HourlyMatrix(rows) ==> HourlyMatrix(rows)[op].Keys == HourLabels(rows)
    ensures forall hourKey :: hourKey in HourLabels(rows) <==>
      exists r :: r in rows && hourKey == NatToString(HourOfDay(r.event.timestamp))
    ensures forall hourKey :: hourKey in HourLabels(rows) ==> exists h :: 0 <= h < 24 && hourKey == NatToString(h)
  {
    forall hourKey | hourKey in HourLabels(rows) ensures exists h :: 0 <= h < 24 && hourKey == NatToString(h) {
      var r :| r in rows && hourKey == HourLabel(r);
      var h := HourOfDay(r.event.timestamp);
      assert 0 <= h < 24 && hourKey == NatToString(h);
    }
  }

  /** Hours `0..n-1` summed straight from the rows. */
  function CellSum(rows: seq<FlaggedEvent>, op: string, n: nat): nat
  {
    if n == 0 then 0 else CellSum(rows, op, n - 1) + Cell(rows, op, NatToString(n - 1))
  }

  lemma {:induction false} CellSumSplit(rows: seq<FlaggedEvent>, op: string, n: nat)
    requires rows != []
    ensures CellSum(rows, op, n) ==
      (if rows[0].event.operatorId == op && HourOfDay(rows[0].event.timestamp) < n then 1 else 0) +
      CellSum(rows[1..], op, n)
  {
    if n > 0 {
      CellSumSplit(rows, op, n - 1);
      HourLabelIff(n - 1, rows[0]);
    }
  }

  lemma {:induction false} CellSumCounts(rows: seq<FlaggedEvent>, op: string)
    ensures CellSum(rows, op, 24) == |Group(rows, OperatorColumn, op)|
  {
    if rows == [] {
      CellSumEmpty(op, 24);
    } else {
      CellSumSplit(rows, op, 24);
      CellSumCounts(rows[1..], op);
    }
  }

  lemma {:induction false} CellSumEmpty(op: string, n: nat)
    ensures CellSum([], op, n) == 0
  {
    if n > 0 { CellSumEmpty(op, n - 1); }
  }

  lemma {:induction false} CellAbsent(rows: seq<FlaggedEvent>, op: string, hourKey: string)
    requires hourKey !in HourLabels(rows)
    ensures Cell(rows, op, hourKey) == 0
  {
    if rows != [] {
      assert HourLabels(rows[1..]) <= HourLabels(rows);
      CellAbsent(rows[1..], op, hourKey);
    }
  }

  lemma {:induction false} HourSumOfRow(rows: seq<FlaggedEvent>, op: string, n: nat)
    requires op in HourlyMatrix(rows)
    ensures HourSum(HourlyMatrix(rows)[op], n) == CellSum(rows, op, n)
  {
    if n > 0 {
      HourSumOfRow(rows, op, n - 1);
      if NatToString(n - 1) !in HourLabels(rows) {
        CellAbsent(rows, op, NatToString(n - 1));
      }
    }
  }

  /** Each operator's row adds up to that operator's number of tests. */
  lemma RowSumsToOperatorTests(rows: seq<FlaggedEvent>, op: string)
    requires op in HourlyMatrix(rows)
    ensures RowTotal(HourlyMatrix(rows)[op]) == |Group(rows, OperatorColumn, op)|
  {
    HourSumOfRow(rows, op, 24);
    CellSumCounts(rows, op);
  }

  /** The row totals over the operators `ks`. */
  function MatrixTotal(m: map<string, map<string, nat>>, ks: seq<string>): nat
  {
    if ks == [] then 0 else (if ks[0] in m then RowTotal(m[ks[0]]) else 0) + MatrixTotal(m, ks[1..])
  }

  lemma {:induction false} MatrixTotalIsSumTally(rows: seq<FlaggedEvent>, ks: seq<string>)
    requires forall k :: k in ks ==> k in KeySet(rows, OperatorColumn)
    ensures MatrixTotal(HourlyMatrix(rows), ks) == SumTally(rows, OperatorColumn, ks, None)
  {
    if ks != [] {
      RowSumsToOperatorTests(rows, ks[0]);
      MatrixTotalIsSumTally(rows, ks[1..]);
    }
  }

  /** The whole table adds up to the number of tests in the frame. */
  lemma MatrixSumsToBatch(rows: seq<FlaggedEvent>)
    ensures MatrixTotal(HourlyMatrix(rows), Keys(rows, OperatorColumn)) == |rows|
  {
    var ks := Keys(rows, OperatorColumn);
    MatrixTotalIsSumTally(rows, ks);
    forall r | r in rows ensures KeyOf(r, OperatorColumn) in ks {
      assert KeyOf(r, OperatorColumn) in KeySet(rows, OperatorColumn);
    }
    SumTallyPartition(rows, OperatorColumn, ks, None);
  }
}
