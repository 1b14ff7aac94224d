/** The iteratively calculated average with C's truncating division. */
module RunningAverage {
  import opened Sequences

  const VALUE: int -> int := x => x

  /** C division, which truncates toward zero. */
  function TruncDiv(a: int, b: int): (q: int)
    requires b > 0
    ensures -b < a - b * q < b && (a >= 0 ==> 0 <= b * q <= a) && (a <= 0 ==> a <= b * q <= 0)
  {
    if a >= 0 then a / b else -((-a) / b)
  }

  /** `update_iterative_average`; `count` numbers the values from 1. */
  function UpdateIterativeAverage(avg: int, value: int, count: int): int
    requires count > 0
  {
    if count == 1 then value else avg + TruncDiv(value - avg, count)
  }

  /**
   * The step is the exact one, (value - avg) / count, rounded toward the old average: it never goes
   * past the exact one, and is less than one away from it.
   */
  lemma StepIsTruncated(avg: int, value: int, count: int)
    requires count > 1
    ensures var d := UpdateIterativeAverage(avg, value, count) - avg;
            && (value >= avg ==> 0 <= count * d <= value - avg)
            && (value <= avg ==> value - avg <= count * d <= 0)
            && -count < value - avg - count * d < count
  {
  }

  /** These bounds leave only one step. */
  lemma OnlyOneStep(count: int, x: int, d: int, e: int)
    requires count > 1
    requires (x >= 0 ==> 0 <= count * d <= x) && (x <= 0 ==> x <= count * d <= 0) && -count < x - count * d < count
    requires (x >= 0 ==> 0 <= count * e <= x) && (x <= 0 ==> x <= count * e <= 0) && -count < x - count * e < count
    ensures d == e
  {
    if d > e {
      FurtherStep(count, d, e);
    } else if d < e {
      FurtherStep(count, e, d);
    }
  }

  lemma FurtherStep(count: int, d: int, e: int)
    requires count > 1 && d > e
    ensures count * d >= count * e + count
  {
    var k := d - e - 1;
    assert count * (e + 1 + k) == count * e + count + count * k;
    assert count * k >= 0;
  }

  /** The average kept after all `values` were integrated; before the first one it is `initial`. */
  function Average(initial: int, values: seq<int>): int
  {
    if values == [] then initial
    else
      var n := |values| - 1;
      UpdateIterativeAverage(Average(initial, values[..n]), values[n], n + 1)
  }

  /** The new average lies between the old one and the new value. */
  lemma UpdateStaysBetween(avg: int, value: int, count: int)
    requires count > 0
    ensures avg <= UpdateIterativeAverage(avg, value, count) <= value ||
            value <= UpdateIterativeAverage(avg, value, count) <= avg ||
            count == 1
  {
    if count > 1 {
      TruncDivIsSmaller(value - avg, count);
    }
  }

  lemma TruncDivIsSmaller(a: int, b: int)
    requires b > 0
    ensures (a >= 0 ==> 0 <= TruncDiv(a, b) <= a) && (a <= 0 ==> a <= TruncDiv(a, b) <= 0)
  {
    FactorIsSmaller(a, b, TruncDiv(a, b));
  }

  lemma FactorIsSmaller(a: int, b: int, q: int)
    requires b > 0 && (a >= 0 ==> 0 <= b * q <= a) && (a <= 0 ==> a <= b * q <= 0)
    ensures (a >= 0 ==> 0 <= q <= a) && (a <= 0 ==> a <= q <= 0)
  {
    if q > 0 {
      assert b * q >= q;
    } else if q < 0 {
      assert b * q <= q;
    }
  }

  /** The average never leaves the range of the values. */
  lemma {:induction false} AverageWithinValues(initial: int, values: seq<int>, low: int, high: int)
    requires values != [] && forall v :: v in values ==> low <= v <= high
    ensures low <= Average(initial, values) <= high
  {
    var n := |values| - 1;
    assert values[n] in values;
    if n == 0 {
    } else {
      assert forall v :: v in values[..n] ==> v in values;
      AverageWithinValues(initial, values[..n], low, high);
      UpdateStaysBetween(Average(initial, values[..n]), values[n], n + 1);
    }
  }

  /** Truncation never moves `n` times the average further than n(n-1)/2 from the sum of `n` values. */
  lemma {:induction false} AverageDrift(initial: int, values: seq<int>)
    requires values != []
    ensures -(|values| * (|values| - 1)) <= 2 * (|values| * Average(initial, values) - Sum(values, VALUE))
    ensures 2 * (|values| * Average(initial, values) - Sum(values, VALUE)) <= |values| * (|values| - 1)
  {
    var n := |values| - 1;
    SumLast(values);
    if n == 0 {
    } else {
      AverageDrift(initial, values[..n]);
      var avg := Average(initial, values[..n]);
      DriftStep(n, avg, values[n], TruncDiv(values[n] - avg, n + 1), Sum(values[..n], VALUE));
    }
  }

  lemma DriftStep(n: int, avg: int, v: int, q: int, sum: int)
    requires n > 0 && -(n + 1) < v - avg - (n + 1) * q < n + 1
    requires -(n * (n - 1)) <= 2 * (n * avg - sum) <= n * (n - 1)
    ensures -((n + 1) * n) <= 2 * ((n + 1) * (avg + q) - (sum + v)) <= (n + 1) * n
  {
    assert (n + 1) * (avg + q) - (sum + v) == (n * avg - sum) - (v - avg - (n + 1) * q);
    assert (n + 1) * n == n * (n - 1) + 2 * n;
  }

  lemma SumLast(values: seq<int>)
    requires values != []
    ensures Sum(values, VALUE) == Sum(values[..|values| - 1], VALUE) + values[|values| - 1]
  {
    var n := |values| - 1;
    SumConcat(values[..n], [values[n]], VALUE);
    assert values[..n] + [values[n]] == values;
  }

  function UpTo(n: nat): (s: seq<int>)
    ensures |s| == n && forall k :: 0 <= k < n ==> s[k] == k
  {
    seq(n, k => k)
  }

  /** The bound on the drift is reached: after 0, 1, ..., n-1 the average is still 0. */
  lemma {:induction false} DriftBoundIsTight(initial: int, n: nat)
    requires n > 0
    ensures Average(initial, UpTo(n)) == 0 && 2 * Sum(UpTo(n), VALUE) == n * (n - 1)
  {
    SumLast(UpTo(n));
    assert UpTo(n)[..n - 1] == UpTo(n - 1);
    if n == 1 {
      assert UpTo(0) == [];
    } else {
      DriftBoundIsTight(initial, n - 1);
      SmallQuotient(n - 1, n);
      assert UpdateIterativeAverage(0, n - 1, n) == 0;
      assert (n - 1) * (n - 2) + 2 * (n - 1) == n * (n - 1);
    }
  }

  lemma SmallQuotient(a: nat, b: nat)
    requires a < b
    ensures TruncDiv(a, b) == 0
  {
  }
}
