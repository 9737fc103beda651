/** The numeric reductions that numpy and pandas apply to a line of numbers
    (`sum`, `max`, `min`, `mean`, population `var`), over unbounded integers,
    with means and variances as reals. */
module Reductions {

  /** The sum of all entries; 0 for the empty sequence. */
  function Sum(s: seq<int>): int
  {
    if s == [] then 0 else s[0] + Sum(s[1..])
  }

  lemma {:induction false} SumConcat(a: seq<int>, b: seq<int>)
    ensures Sum(a + b) == Sum(a) + Sum(b)
  {
    if a == [] {
      assert a + b == b;
    } else {
      assert (a + b)[1..] == a[1..] + b;
      SumConcat(a[1..], b);
    }
  }

  /** The sum of a line of three, written out. */
  lemma SumOfThree(s: seq<int>)
    requires |s| == 3
    ensures Sum(s) == s[0] + s[1] + s[2]
  {
    var t := s[1..];
    assert t[1..] == [s[2]];
    assert Sum(t[1..]) == s[2] + Sum([]);
    assert Sum(t) == s[1] + Sum(t[1..]);
  }

  /** The largest entry: it occurs in `s` and bounds every entry from above. */
  function Max(s: seq<int>): (m: int)
    requires |s| > 0
    ensures m in s
    ensures forall i :: 0 <= i < |s| ==> s[i] <= m
  {
    if |s| == 1 then s[0]
    else
      var rest := Max(s[1..]);
      if s[0] >= rest then s[0] else rest
  }

  /** The smallest entry: it occurs in `s` and bounds every entry from below. */
  function Min(s: seq<int>): (m: int)
    requires |s| > 0
    ensures m in s
    ensures forall i :: 0 <= i < |s| ==> m <= s[i]
  {
    if |s| == 1 then s[0]
    else
      var rest := Min(s[1..]);
      if s[0] <= rest then s[0] else rest
  }

  /** An entry of `s` that bounds all of `s` from above is the maximum. */
  lemma MaxIsUnique(s: seq<int>, m: int)
    requires m in s
    requires forall i :: 0 <= i < |s| ==> s[i] <= m
    ensures Max(s) == m
  {
    var k :| 0 <= k < |s| && s[k] == m;
    assert s[k] <= Max(s);
  }

  /** An entry of `s` that bounds all of `s` from below is the minimum. */
  lemma MinIsUnique(s: seq<int>, m: int)
    requires m in s
    requires forall i :: 0 <= i < |s| ==> m <= s[i]
    ensures Min(s) == m
  {
    var k :| 0 <= k < |s| && s[k] == m;
    assert Min(s) <= s[k];
  }

  /** The arithmetic mean, `sum / count`. */
  function Mean(s: seq<int>): real
    requires |s| > 0
  {
    Sum(s) as real / |s| as real
  }

  /** The sum of the squared deviations of the entries of `s` from `mu`. */
  function SquaredDeviations(s: seq<int>, mu: real): real
  {
    if s == [] then 0.0
    else (s[0] as real - mu) * (s[0] as real - mu) + SquaredDeviations(s[1..], mu)
  }

  lemma {:induction false} SquaredDeviationsConcat(a: seq<int>, b: seq<int>, mu: real)
    ensures SquaredDeviations(a + b, mu) == SquaredDeviations(a, mu) + SquaredDeviations(b, mu)
  {
    if a == [] {
      assert a + b == b;
    } else {
      assert (a + b)[1..] == a[1..] + b;
      SquaredDeviationsConcat(a[1..], b, mu);
    }
  }

  /** The squared deviations of a line of three, written out. */
  lemma SquaredDeviationsOfThree(s: seq<int>, mu: real)
    requires |s| == 3
    ensures SquaredDeviations(s, mu) == (s[0] as real - mu) * (s[0] as real - mu)
      + (s[1] as real - mu) * (s[1] as real - mu) + (s[2] as real - mu) * (s[2] as real - mu)
  {
    var t := s[1..];
    assert t[1..] == [s[2]];
    assert SquaredDeviations(t[1..], mu) == (s[2] as real - mu) * (s[2] as real - mu) + SquaredDeviations([], mu);
    assert SquaredDeviations(t, mu) == (s[1] as real - mu) * (s[1] as real - mu) + SquaredDeviations(t[1..], mu);
  }

  /** All entries of `s` are equal. */
  predicate Constant(s: seq<int>)
  {
    forall i, j :: 0 <= i < |s| && 0 <= j < |s| ==> s[i] == s[j]
  }

  /** The population variance (divisor N, numpy's default `ddof=0`): the mean
      squared deviation from the mean. It is never negative, and it is zero
      exactly when all entries are equal. */
  function Variance(s: seq<int>): (v: real)
    requires |s| > 0
    ensures v >= 0.0
    ensures v == 0.0 <==> Constant(s)
  {
    var n := |s|;
    var d := SquaredDeviations(s, Mean(s));
    SquaredDeviationsScaled(s, n, Sum(s));
    ConstantScaled(s);
    QuotientSign(ScaledSquares(s, n, Sum(s)) as real, (n * n) as real);
    QuotientSign(d, n as real);
    d / n as real
  }

  /** The sum of the squares of the entries. */
  function SumOfSquares(s: seq<int>): int
  {
    if s == [] then 0 else s[0] * s[0] + SumOfSquares(s[1..])
  }

  /** The variance in exact integer form: the sum of the squares of
      `N * x - Sum` over the entries, divided by `N * N` and by `N`. */
  lemma VarianceScaled(s: seq<int>)
    requires |s| > 0
    ensures Variance(s) == ScaledSquares(s, |s|, Sum(s)) as real / (|s| * |s|) as real / |s| as real
  {
    SquaredDeviationsScaled(s, |s|, Sum(s));
  }

  /** The mean of the squares less the square of the mean, scaled by `N^3`
      to integers: the scaled squares around the mean are
      `N * (N * SumOfSquares - Sum * Sum)`. With `VarianceScaled` this puts the
      variance at that value over `N^3`. */
  lemma ScaledSquaresOfSum(s: seq<int>)
    ensures ScaledSquares(s, |s|, Sum(s)) == |s| * (|s| * SumOfSquares(s) - Sum(s) * Sum(s))
  {
    var n, total, q := |s|, Sum(s), SumOfSquares(s);
    ScaledSquaresExpanded(s, n, total);
    CollectTerms(n, q, total, ScaledSquares(s, n, total));
  }

  lemma CollectTerms(n: int, q: int, t: int, e: int)
    requires e == (n * n) * q - (2 * n * t) * t + n * (t * t)
    ensures e == n * (n * q - t * t)
  {
  }

  /** `ScaledSquares` multiplied out: n^2 * sum of squares - 2 n total * sum + |s| * total^2. */
  lemma {:induction false} ScaledSquaresExpanded(s: seq<int>, n: int, total: int)
    ensures ScaledSquares(s, n, total)
         == (n * n) * SumOfSquares(s) - (2 * n * total) * Sum(s) + |s| * (total * total)
  {
    if s != [] {
      var x, rest := s[0], s[1..];
      ScaledSquaresExpanded(rest, n, total);
      var a, q, sum := ScaledSquares(rest, n, total), SumOfSquares(rest), Sum(rest);
      assert ScaledSquares(s, n, total) == (n * x - total) * (n * x - total) + a;
      assert SumOfSquares(s) == x * x + q && Sum(s) == x + sum;
      ExpandStep(n, x, total, a, q, sum, |rest|);
    }
  }

  /** One entry's share of `ScaledSquaresExpanded`, multiplied out. */
  lemma ExpandStep(n: int, x: int, t: int, a: int, q: int, sum: int, len: int)
    requires a == (n * n) * q - (2 * n * t) * sum + len * (t * t)
    ensures (n * x - t) * (n * x - t) + a
         == (n * n) * (x * x + q) - (2 * n * t) * (x + sum) + (len + 1) * (t * t)
  {
    SquareOfDifference(n, x, t);
    Distribute(n * n, x * x, q);
    Distribute(2 * n * t, x, sum);
    Distribute(t * t, 1, len);
  }

  lemma Distribute(a: int, b: int, c: int)
    ensures a * (b + c) == a * b + a * c
  {
  }

  lemma SquareOfDifference(n: int, x: int, total: int)
    ensures (n * x - total) * (n * x - total) == (n * n) * (x * x) - (2 * n * total) * x + total * total
  {
  }

  /** The sum of the squares of `n * x - total` over the entries `x` of `s`:
      the squared deviations from the mean `total / n`, scaled by `n * n`
      so that they stay integers. */
  function ScaledSquares(s: seq<int>, n: int, total: int): (q: int)
    ensures q >= 0
    ensures q == 0 <==> forall i :: 0 <= i < |s| ==> n * s[i] == total
  {
    if s == [] then 0
    else
      var e := n * s[0] - total;
      assert forall i :: 1 <= i < |s| ==> s[i] == s[1..][i - 1];
      e * e + ScaledSquares(s[1..], n, total)
  }

  lemma ScaledSquare(x: int, n: int, total: int)
    requires n > 0
    ensures (x as real - total as real / n as real) * (x as real - total as real / n as real)
         == ((n * x - total) * (n * x - total)) as real / (n * n) as real
  {
    var d := x as real - total as real / n as real;
    var e := n * x - total;
    assert d * n as real == e as real;
    assert (e * e) as real == e as real * e as real;
    assert (n * n) as real == n as real * n as real;
    assert d * d * (n as real * n as real) == e as real * e as real;
  }

  lemma AddQuotients(a: real, b: real, c: real)
    requires c > 0.0
    ensures a / c + b / c == (a + b) / c
  {
  }

  lemma QuotientSign(a: real, c: real)
    requires c > 0.0
    ensures a >= 0.0 ==> a / c >= 0.0
    ensures a / c == 0.0 <==> a == 0.0
  {
  }

  /** Squared deviations from the mean `total / n`, in exact integer form. */
  lemma {:induction false} SquaredDeviationsScaled(s: seq<int>, n: int, total: int)
    requires n > 0
    ensures SquaredDeviations(s, total as real / n as real)
         == ScaledSquares(s, n, total) as real / (n * n) as real
  {
    if s != [] {
      var mu, nn := total as real / n as real, (n * n) as real;
      var e, q := n * s[0] - total, ScaledSquares(s[1..], n, total);
      var head := (s[0] as real - mu) * (s[0] as real - mu);
      SquaredDeviationsScaled(s[1..], n, total);
      ScaledSquare(s[0], n, total);
      assert head == (e * e) as real / nn;
      assert SquaredDeviations(s, mu) == head + q as real / nn;
      AddQuotients((e * e) as real, q as real, nn);
      assert ScaledSquares(s, n, total) == e * e + q;
    }
  }

  /** A line is constant exactly when every entry, times the count, is the sum. */
  lemma ConstantScaled(s: seq<int>)
    requires |s| > 0
    ensures Constant(s) <==> forall i :: 0 <= i < |s| ==> |s| * s[i] == Sum(s)
  {
    var n := |s|;
    if Constant(s) {
      SumOfConstant(s, s[0]);
    }
    if forall i :: 0 <= i < n ==> n * s[i] == Sum(s) {
      forall i, j | 0 <= i < n && 0 <= j < n
        ensures s[i] == s[j]
      {
        assert n * s[i] == n * s[j];
        CancelFactor(n, s[i], s[j]);
      }
    }
  }

  lemma CancelFactor(n: int, a: int, b: int)
    requires n > 0 && n * a == n * b
    ensures a == b
  {
  }

  lemma {:induction false} SumOfConstant(s: seq<int>, c: int)
    requires forall i :: 0 <= i < |s| ==> s[i] == c
    ensures Sum(s) == |s| * c
  {
    if s != [] {
      SumOfConstant(s[1..], c);
    }
  }

  lemma {:induction false} SumAtLeast(s: seq<int>, c: int)
    requires forall i :: 0 <= i < |s| ==> c <= s[i]
    ensures |s| * c <= Sum(s)
  {
    if s != [] {
      SumAtLeast(s[1..], c);
    }
  }

  lemma {:induction false} SumAtMost(s: seq<int>, c: int)
    requires forall i :: 0 <= i < |s| ==> s[i] <= c
    ensures Sum(s) <= |s| * c
  {
    if s != [] {
      SumAtMost(s[1..], c);
    }
  }

  lemma QuotientBounds(total: int, n: int, lo: int, hi: int)
    requires n > 0 && n * lo <= total <= n * hi
    ensures lo as real <= total as real / n as real <= hi as real
  {
    ProductAsReal(n, lo);
    ProductAsReal(n, hi);
    var t, m := total as real, n as real;
    assert m * lo as real <= t <= m * hi as real;
    assert t / m * m == t;
  }

  lemma ProductAsReal(a: int, b: int)
    ensures (a * b) as real == a as real * b as real
  {
  }

  /** `v` times the number of entries of `s` is their sum. */
  predicate IsMeanOf(v: real, s: seq<int>)
  {
    v * |s| as real == Sum(s) as real
  }

  /** The mean times the count is the sum. */
  lemma MeanTimesCount(s: seq<int>)
    requires |s| > 0
    ensures IsMeanOf(Mean(s), s)
  {
    var n := |s| as real;
    assert Sum(s) as real / n * n == Sum(s) as real;
  }

  /** The mean lies between the smallest and the largest entry. */
  lemma MeanBounds(s: seq<int>)
    requires |s| > 0
    ensures Min(s) as real <= Mean(s) <= Max(s) as real
  {
    SumAtLeast(s, Min(s));
    SumAtMost(s, Max(s));
    QuotientBounds(Sum(s), |s|, Min(s), Max(s));
  }
}
