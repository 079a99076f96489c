/** SUM over the rows of a query, for saying what a total is apart from how it is kept. */
module Sums {
  import opened OrderedRows

  function SumBy<T>(col: T -> int, rows: seq<T>): int {
    if rows == [] then 0 else col(rows[0]) + SumBy(col, rows[1..])
  }

  function RealSumBy<T>(col: T -> real, rows: seq<T>): real {
    if rows == [] then 0.0 else col(rows[0]) + RealSumBy(col, rows[1..])
  }

  lemma {:induction false} SumSnoc<T>(col: T -> int, rows: seq<T>, row: T)
    ensures SumBy(col, rows + [row]) == SumBy(col, rows) + col(row)
  {
    if rows == [] {
      assert rows + [row] == [row];
    } else {
      assert (rows + [row])[1..] == rows[1..] + [row];
      SumSnoc(col, rows[1..], row);
    }
  }

  lemma {:induction false} RealSumSnoc<T>(col: T -> real, rows: seq<T>, row: T)
    ensures RealSumBy(col, rows + [row]) == RealSumBy(col, rows) + col(row)
  {
    if rows == [] {
      assert rows + [row] == [row];
    } else {
      assert (rows + [row])[1..] == rows[1..] + [row];
      RealSumSnoc(col, rows[1..], row);
    }
  }

  /** One row more, for every column and every condition at once. */
  lemma OneRowMore<T(!new)>(rows: seq<T>, row: T)
    ensures forall col: T -> int :: SumBy(col, rows + [row]) == SumBy(col, rows) + col(row)
    ensures forall col: T -> real :: RealSumBy(col, rows + [row]) == RealSumBy(col, rows) + col(row)
    ensures forall p: T -> bool :: |Filter(p, rows + [row])| == |Filter(p, rows)| + if p(row) then 1 else 0
  {
    forall col: T -> int
      ensures SumBy(col, rows + [row]) == SumBy(col, rows) + col(row)
    {
      SumSnoc(col, rows, row);
    }
    forall col: T -> real
      ensures RealSumBy(col, rows + [row]) == RealSumBy(col, rows) + col(row)
    {
      RealSumSnoc(col, rows, row);
    }
    forall p: T -> bool
      ensures |Filter(p, rows + [row])| == |Filter(p, rows)| + if p(row) then 1 else 0
    {
      FilterAppend(p, rows, [row]);
    }
  }
}
