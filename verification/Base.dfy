/** Stock result types, the one notion of "sum over a table", and integer division. */
module Base {
  datatype Option<+T> = None | Some(value: T)

  datatype Result<+T, +E> = Ok(value: T) | Err(error: E)

  /** The sum of `weight` over the rows of a table. Counting is summing 0/1 weights. */
  function Sum<T>(rows: seq<T>, weight: T -> int): int {
    if rows == [] then 0 else Sum(rows[..|rows| - 1], weight) + weight(rows[|rows| - 1])
  }

  lemma SumPush<T>(rows: seq<T>, row: T, weight: T -> int)
    ensures Sum(rows + [row], weight) == Sum(rows, weight) + weight(row)
  {
    assert (rows + [row])[..|rows|] == rows;
  }

  lemma {:induction false} SumConcat<T>(left: seq<T>, right: seq<T>, weight: T -> int)
    ensures Sum(left + right, weight) == Sum(left, weight) + Sum(right, weight)
  {
    if right == [] {
      assert left + right == left;
    } else {
      var n := |right| - 1;
      assert (left + right)[..|left| + n] == left + right[..n];
      SumConcat(left, right[..n], weight);
    }
  }

  lemma {:induction false} SumUpdate<T>(rows: seq<T>, i: nat, row: T, weight: T -> int)
    requires i < |rows|
    ensures Sum(rows[i := row], weight) == Sum(rows, weight) - weight(rows[i]) + weight(row)
  {
    var n := |rows| - 1;
    if i == n {
      assert rows[i := row][..n] == rows[..n];
    } else {
      assert rows[i := row][..n] == rows[..n][i := row];
      SumUpdate(rows[..n], i, row, weight);
    }
  }

  lemma {:induction false} SumLe<T>(rows: seq<T>, low: T -> int, high: T -> int)
    requires forall i :: 0 <= i < |rows| ==> low(rows[i]) <= high(rows[i])
    ensures Sum(rows, low) <= Sum(rows, high)
  {
    if rows != [] {
      SumLe(rows[..|rows| - 1], low, high);
    }
  }

  lemma SumEq<T>(rows: seq<T>, f: T -> int, g: T -> int)
    requires forall i :: 0 <= i < |rows| ==> f(rows[i]) == g(rows[i])
    ensures Sum(rows, f) == Sum(rows, g)
  {
    SumLe(rows, f, g);
    SumLe(rows, g, f);
  }

  lemma {:induction false} SumZero<T>(rows: seq<T>, weight: T -> int)
    requires forall i :: 0 <= i < |rows| ==> weight(rows[i]) == 0
    ensures Sum(rows, weight) == 0
  {
    if rows != [] {
      SumZero(rows[..|rows| - 1], weight);
    }
  }

  lemma {:induction false} SumNonNegative<T>(rows: seq<T>, weight: T -> int)
    requires forall i :: 0 <= i < |rows| ==> weight(rows[i]) >= 0
    ensures Sum(rows, weight) >= 0
  {
    if rows != [] {
      SumNonNegative(rows[..|rows| - 1], weight);
    }
  }

  /** In a table of non-negative weights one row never outweighs the whole table. */
  lemma {:induction false} SumAtLeast<T>(rows: seq<T>, i: nat, weight: T -> int)
    requires i < |rows|
    requires forall k :: 0 <= k < |rows| ==> weight(rows[k]) >= 0
    ensures weight(rows[i]) <= Sum(rows, weight)
  {
    var n := |rows| - 1;
    if i == n {
      SumNonNegative(rows[..n], weight);
    } else {
      SumAtLeast(rows[..n], i, weight);
    }
  }

  /** Adding two weights row by row adds the two sums. */
  lemma {:induction false} SumSplit<T>(rows: seq<T>, whole: T -> int, f: T -> int, g: T -> int)
    requires forall i :: 0 <= i < |rows| ==> whole(rows[i]) == f(rows[i]) + g(rows[i])
    ensures Sum(rows, whole) == Sum(rows, f) + Sum(rows, g)
  {
    if rows != [] {
      SumSplit(rows[..|rows| - 1], whole, f, g);
    }
  }

  lemma SumFromPointwise<T>(a: seq<T>, b: seq<T>, weight: T -> int)
    requires |a| == |b|
    requires forall i :: 0 <= i < |a| ==> weight(a[i]) == weight(b[i])
    ensures Sum(a, weight) == Sum(b, weight)
  {
    if a != [] {
      SumFromPointwise(a[..|a| - 1], b[..|b| - 1], weight);
    }
  }

  lemma UnionAtMost<T>(a: set<T>, b: set<T>)
    ensures |a + b| <= |a| + |b|
  {
    assert a + b == a + (b - a);
    SubsetSize(b - a, b);
  }

  lemma {:induction false} SubsetSize<T>(a: set<T>, b: set<T>)
    requires a <= b
    ensures |a| <= |b|
  {
    if a != {} {
      var x :| x in a;
      SubsetSize(a - {x}, b - {x});
    }
  }

  // ----- Integer division ----------------------------------------------------------------------

  lemma MulAtLeast(m: nat, k: int)
    requires k >= 1
    ensures m * k >= m
  {
  }

  lemma MulLe(m: nat, a: int, b: int)
    requires a <= b
    ensures m * a <= m * b
  {
  }

  /** The floor of a quotient is the only integer that fits. */
  lemma FloorUnique(a: int, m: nat, q: int)
    requires m > 0
    ensures q == a / m <==> m * q <= a < m * q + m
  {
    var r := a / m;
    assert a == m * r + a % m;
    if q < r {
      MulAtLeast(m, r - q);
      assert m * (r - q) == m * r - m * q;
    } else if q > r {
      MulAtLeast(m, q - r);
      assert m * (q - r) == m * q - m * r;
    }
  }

  lemma DivUnique(a: int, m: nat, q: int, r: nat)
    requires r < m && a == m * q + r
    ensures a / m == q && a % m == r
  {
    FloorUnique(a, m, q);
    assert a == m * (a / m) + a % m;
  }
}
