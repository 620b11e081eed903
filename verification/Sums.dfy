/** Totals over table rows: the `SUM(...)` of a query, with the facts about it that the accounting laws use. */
module Sums {
  /** The total weight of the rows. */
  function Sum<T>(rows: seq<T>, weight: T -> int): int
  {
    if rows == [] then 0 else Sum(rows[..|rows| - 1], weight) + weight(rows[|rows| - 1])
  }

  lemma SumAppend<T>(rows: seq<T>, row: T, weight: T -> int)
    ensures Sum(rows + [row], weight) == Sum(rows, weight) + weight(row)
  {
    assert (rows + [row])[..|rows|] == rows;
  }

  lemma {:induction false} SumPrepend<T>(row: T, rows: seq<T>, weight: T -> int)
    ensures Sum([row] + rows, weight) == weight(row) + Sum(rows, weight)
  {
    if rows == [] {
      assert ([row] + rows)[..0] == [];
    } else {
      SumPrepend(row, rows[..|rows| - 1], weight);
      assert ([row] + rows)[..|rows|] == [row] + rows[..|rows| - 1];
    }
  }

  lemma {:induction false} SumUpdate<T>(rows: seq<T>, i: nat, row: T, weight: T -> int)
    requires i < |rows|
    ensures Sum(rows[i := row], weight) == Sum(rows, weight) - weight(rows[i]) + weight(row)
  {
    var last := |rows| - 1;
    if i == last {
      assert rows[i := row][..last] == rows[..last];
    } else {
      SumUpdate(rows[..last], i, row, weight);
      assert rows[i := row][..last] == rows[..last][i := row];
    }
  }

  /** Rows that weigh the same add up to the same. */
  lemma {:induction false} SumCongruent<T>(rows: seq<T>, rows': seq<T>, weight: T -> int, weight': T -> int)
    requires |rows| == |rows'|
    requires forall i :: 0 <= i < |rows| ==> weight(rows[i]) == weight'(rows'[i])
    ensures Sum(rows, weight) == Sum(rows', weight')
  {
    if rows != [] {
      SumCongruent(rows[..|rows| - 1], rows'[..|rows| - 1], weight, weight');
    }
  }

  /** Non-negative rows: the total is non-negative and covers each of them. */
  lemma {:induction false} SumCovers<T>(rows: seq<T>, weight: T -> int)
    requires forall i :: 0 <= i < |rows| ==> weight(rows[i]) >= 0
    ensures Sum(rows, weight) >= 0
    ensures forall i :: 0 <= i < |rows| ==> weight(rows[i]) <= Sum(rows, weight)
  {
    if rows != [] {
      var front := rows[..|rows| - 1];
      SumCovers(front, weight);
      forall i | 0 <= i < |rows|
        ensures weight(rows[i]) <= Sum(rows, weight)
      {
        if i < |front| {
          assert front[i] == rows[i];
        }
      }
    }
  }

  lemma {:induction false} SumZero<T>(rows: seq<T>, weight: T -> int)
    requires forall i :: 0 <= i < |rows| ==> weight(rows[i]) == 0
    ensures Sum(rows, weight) == 0
  {
    if rows != [] {
      SumZero(rows[..|rows| - 1], weight);
    }
  }

  function Min(a: int, b: int): int { if a < b then a else b }

  function Max(a: int, b: int): int { if a < b then b else a }
}
