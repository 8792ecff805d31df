/** Generic statistics over a read-only range: mean, variance, quantile and
    the sortedness test.

    A range of doubles is a `seq<real>` (no NaN or infinity exists in `real`,
    which is the routines' "no value is NaN" precondition); a range of ints is
    a `seq<int>`. For ints the routines accumulate in the element type, do the
    final division in floating point and convert back with `static_cast`,
    which truncates toward zero: `TruncToInt` below.
 */
module Stats {
  import opened Errors
  import Sorting

  // ---------------------------------------------------------------------
  // Specification functions

  /** Sum of the elements, accumulated left to right. */
  function Sum(s: seq<real>): real {
    if s == [] then 0.0 else Sum(s[..|s| - 1]) + s[|s| - 1]
  }

  /** Sum of the squares of the elements, accumulated left to right. */
  function SumSq(s: seq<real>): real {
    if s == [] then 0.0 else SumSq(s[..|s| - 1]) + s[|s| - 1] * s[|s| - 1]
  }

  /** Sum of the squared deviations of the elements from `m`. */
  function SumSqDev(s: seq<real>, m: real): real {
    if s == [] then 0.0 else SumSqDev(s[..|s| - 1], m) + (s[|s| - 1] - m) * (s[|s| - 1] - m)
  }

  /** The elements of an int range, as exact reals. */
  function Reals(s: seq<int>): (r: seq<real>)
    ensures |r| == |s|
  {
    seq(|s|, i requires 0 <= i < |s| => s[i] as real)
  }

  /** The arithmetic mean. */
  function Average(s: seq<real>): real
    requires |s| > 0
  {
    Sum(s) / (|s| as real)
  }

  /** The unbiased sample variance, by its two-pass definition
      (sum of squared deviations from the mean, over n - 1). */
  function SampleVariance(s: seq<real>): real
    requires |s| >= 2
  {
    SumSqDev(s, Average(s)) / ((|s| - 1) as real)
  }

  /** The one-pass formula (sumsq - sum*sum/n) / (n - 1) of the variance routine. */
  function OnePassVariance(sum: real, sumsq: real, n: real): real
    requires n > 1.0
  {
    (sumsq - sum * sum / n) / (n - 1.0)
  }

  /** C++ `static_cast<int>` of a double: truncation toward zero. */
  function TruncToInt(x: real): (r: int)
    ensures 0.0 <= x ==> r as real <= x < r as real + 1.0
    ensures x < 0.0 ==> r as real - 1.0 < x <= r as real
  {
    if x >= 0.0 then x.Floor else -((-x).Floor)
  }

  /** The strict order of doubles, `operator<`. */
  function Less(a: real, b: real): bool {
    a < b
  }

  /** The ascending-sorted copy that quantile indexes into. */
  function SortedCopy(s: seq<real>): (t: seq<real>)
    ensures |t| == |s|
  {
    Sorting.SortBy(s, Less)
  }

  /** The nearest-rank index rule: floor(q * n) for q < 1, and n - 1 for q == 1. */
  function QuantileIndex(q: real, n: nat): (k: nat)
    requires 0.0 <= q <= 1.0 && n > 0
    ensures k < n
    ensures q < 1.0 ==> k as real <= q * (n as real) < k as real + 1.0
    ensures q == 1.0 ==> k == n - 1
  {
    if q < 1.0 then
      FractionBelow(q, n);
      (q * (n as real)).Floor
    else n - 1
  }

  /** floor(q * n) is an index into n elements when 0 <= q < 1. */
  lemma FractionBelow(q: real, n: nat)
    requires 0.0 <= q < 1.0 && n > 0
    ensures 0 <= (q * (n as real)).Floor < n
    ensures (q * (n as real)).Floor as real <= q * (n as real) < (q * (n as real)).Floor as real + 1.0
  {
    var p := q * (n as real);
    assert 0.0 <= p < n as real;
    var k := p.Floor;
    assert k as real <= p < k as real + 1.0;
  }

  /** One step of the int accumulation loop, read in exact reals. */
  lemma {:induction false} IntSumsStep(s: seq<int>, i: nat, sum: int, sumsq: int)
    requires i < |s|
    requires sum as real == Sum(Reals(s[..i])) && sumsq as real == SumSq(Reals(s[..i]))
    ensures (sum + s[i]) as real == Sum(Reals(s[..i + 1]))
    ensures (sumsq + s[i] * s[i]) as real == SumSq(Reals(s[..i + 1]))
  {
    RealsPrefix(s, i);
    var x := s[i] as real;
    assert (Reals(s[..i]) + [x])[..i] == Reals(s[..i]);
    assert (s[i] * s[i]) as real == x * x;
  }

  /** The sortedness test's definition: no adjacent pair has `next < first`. */
  predicate NoDescent(s: seq<real>) {
    forall i :: 0 <= i < |s| - 1 ==> !(s[i + 1] < s[i])
  }

  // ---------------------------------------------------------------------
  // The routines

  /** mean() over a range of doubles. */
  method MeanReal(s: seq<real>) returns (r: Result<real>)
    ensures r.Failure? <==> |s| == 0
    ensures r.Failure? ==> r.error == NotEnoughData
    ensures r.Success? ==> r.value == Average(s)
  {
    var sum := 0.0;
    var count := 0;
    var i := 0;
    while i < |s|
      invariant 0 <= i <= |s| && count == i
      invariant sum == Sum(s[..i])
    {
      assert s[..i + 1][..i] == s[..i];
      sum := sum + s[i];
      count := count + 1;
      i := i + 1;
    }
    assert s[..i] == s;
    if count <= 0 {
      return Failure(NotEnoughData);
    }
    var dcount := count as real;
    r := Success(sum / dcount);
  }

  lemma {:induction false} RealsPrefix(s: seq<int>, i: nat)
    requires i < |s|
    ensures Reals(s[..i + 1]) == Reals(s[..i]) + [s[i] as real]
  {
  }

  /** mean() over a range of ints: exact sum, floating division, truncation. */
  method MeanInt(s: seq<int>) returns (r: Result<int>)
    ensures r.Failure? <==> |s| == 0
    ensures r.Failure? ==> r.error == NotEnoughData
    ensures r.Success? ==> r.value == TruncToInt(Average(Reals(s)))
  {
    var sum := 0;
    var count := 0;
    var i := 0;
    while i < |s|
      invariant 0 <= i <= |s| && count == i
      invariant sum as real == Sum(Reals(s[..i]))
    {
      RealsPrefix(s, i);
      assert (Reals(s[..i]) + [s[i] as real])[..i] == Reals(s[..i]);
      sum := sum + s[i];
      count := count + 1;
      i := i + 1;
    }
    assert s[..i] == s;
    if count <= 0 {
      return Failure(NotEnoughData);
    }
    var dcount := count as real;
    r := Success(TruncToInt(sum as real / dcount));
  }

  /** variance() over a range of doubles, by the one-pass sum-of-squares
      formula; the result is the unbiased sample variance. */
  method VarianceReal(s: seq<real>) returns (r: Result<real>)
    ensures r.Failure? <==> |s| < 2
    ensures r.Failure? ==> r.error == NotEnoughData
    ensures r.Success? ==> r.value == SampleVariance(s)
  {
    var sum, sumsq := 0.0, 0.0;
    var count := 0;
    var i := 0;
    while i < |s|
      invariant 0 <= i <= |s| && count == i
      invariant sum == Sum(s[..i]) && sumsq == SumSq(s[..i])
    {
      assert s[..i + 1][..i] == s[..i];
      sum := sum + s[i];
      sumsq := sumsq + s[i] * s[i];
      count := count + 1;
      i := i + 1;
    }
    assert s[..i] == s;
    if count <= 1 {
      return Failure(NotEnoughData);
    }
    var dcount := count as real;
    OnePassIsSampleVariance(s);
    r := Success(OnePassVariance(sum, sumsq, dcount));
  }

  /** variance() over a range of ints: exact sums, floating division, truncation. */
  method VarianceInt(s: seq<int>) returns (r: Result<int>)
    ensures r.Failure? <==> |s| < 2
    ensures r.Failure? ==> r.error == NotEnoughData
    ensures r.Success? ==> r.value == TruncToInt(SampleVariance(Reals(s)))
  {
    var sum, sumsq := 0, 0;
    var count := 0;
    var i := 0;
    while i < |s|
      invariant 0 <= i <= |s| && count == i
      invariant sum as real == Sum(Reals(s[..i]))
      invariant sumsq as real == SumSq(Reals(s[..i]))
    {
      IntSumsStep(s, i, sum, sumsq);
      sum := sum + s[i];
      sumsq := sumsq + s[i] * s[i];
      count := count + 1;
      i := i + 1;
    }
    assert s[..i] == s;
    if count <= 1 {
      return Failure(NotEnoughData);
    }
    var dcount := count as real;
    OnePassIsSampleVariance(Reals(s));
    r := Success(TruncToInt(OnePassVariance(sum as real, sumsq as real, dcount)));
  }

  /** quantile(): the argument check comes first, then the emptiness check,
      then the element at the nearest-rank index of a sorted private copy. */
  method Quantile(s: seq<real>, q: real) returns (r: Result<real>)
    ensures (q < 0.0 || q > 1.0) ==> r == Failure(InvalidArgument)
    ensures 0.0 <= q <= 1.0 && |s| == 0 ==> r == Failure(NotEnoughData)
    ensures 0.0 <= q <= 1.0 && |s| > 0 ==>
      r == Success(SortedCopy(s)[QuantileIndex(q, |s|)])
  {
    if q < 0.0 || q > 1.0 {
      return Failure(InvalidArgument);
    }
    var vecSize := |s|;
    if vecSize < 1 {
      return Failure(NotEnoughData);
    }
    var sortedVec := SortedCopy(s);
    var index := QuantileIndex(q, vecSize);
    r := Success(sortedVec[index]);
  }

  /** isSorted(): walks adjacent pairs and stops at the first descent. */
  method IsSorted(s: seq<real>) returns (b: bool)
    ensures b == NoDescent(s)
  {
    if |s| == 0 {
      return true;
    }
    var first := 0;
    var next := 1;
    while next < |s|
      invariant 1 <= next <= |s| && first == next - 1
      invariant forall i :: 0 <= i < first ==> !(s[i + 1] < s[i])
    {
      if s[next] < s[first] {
        return false;
      }
      first := first + 1;
      next := next + 1;
    }
    return true;
  }

  // ---------------------------------------------------------------------
  // Properties of mean

  /** A single element is its own mean, for doubles and for ints. */
  lemma MeanOfOne(x: real, y: int)
    ensures Average([x]) == x
    ensures TruncToInt(Average(Reals([y]))) == y
  {
    assert Sum([x]) == x by {
      assert [x][..0] == [];
    }
    assert Reals([y]) == [y as real];
    assert Sum([y as real]) == y as real by {
      assert [y as real][..0] == [];
    }
  }

  lemma {:induction false} SumBounds(s: seq<real>, lo: real, hi: real)
    requires forall i :: 0 <= i < |s| ==> lo <= s[i] <= hi
    ensures (|s| as real) * lo <= Sum(s) <= (|s| as real) * hi
  {
    if s != [] {
      SumBounds(s[..|s| - 1], lo, hi);
    }
  }

  /** The mean lies between any lower and upper bound of the elements. */
  lemma {:induction false} AverageBounds(s: seq<real>, lo: real, hi: real)
    requires |s| > 0
    requires forall i :: 0 <= i < |s| ==> lo <= s[i] <= hi
    ensures lo <= Average(s) <= hi
  {
    SumBounds(s, lo, hi);
    var n := |s| as real;
    assert Sum(s) / n >= (n * lo) / n;
    assert Sum(s) / n <= (n * hi) / n;
  }

  lemma {:induction false} SumAppend(s: seq<real>, t: seq<real>)
    ensures Sum(s + t) == Sum(s) + Sum(t)
  {
    if t != [] {
      assert (s + t)[..|s + t| - 1] == s + t[..|t| - 1];
      SumAppend(s, t[..|t| - 1]);
    } else {
      assert s + t == s;
    }
  }

  /** The sum, hence the mean, does not depend on the order of the elements. */
  lemma {:induction false} SumPermutation(s: seq<real>, t: seq<real>)
    requires multiset(s) == multiset(t)
    ensures Sum(s) == Sum(t)
  {
    if s == [] {
      assert |t| == |multiset(t)| == 0;
    } else {
      var x := s[|s| - 1];
      assert x in multiset(t);
      var j :| 0 <= j < |t| && t[j] == x;
      var rest := t[..j] + t[j + 1..];
      assert t == t[..j] + [x] + t[j + 1..];
      assert s == s[..|s| - 1] + [x];
      assert multiset(s[..|s| - 1]) == multiset(s) - multiset{x};
      assert multiset(rest) == multiset(t) - multiset{x};
      SumPermutation(s[..|s| - 1], rest);
      SumRemove(t, j);
    }
  }

  /** Taking one element out of a range takes it out of the sum. */
  lemma {:induction false} SumRemove(t: seq<real>, j: nat)
    requires j < |t|
    ensures Sum(t) == Sum(t[..j] + t[j + 1..]) + t[j]
  {
    var x := t[j];
    assert t == t[..j] + [x] + t[j + 1..];
    SumAppend(t[..j] + [x], t[j + 1..]);
    SumAppend(t[..j], [x]);
    SumAppend(t[..j], t[j + 1..]);
    assert Sum([x]) == x by {
      assert [x][..0] == [];
    }
  }

  lemma {:induction false} AveragePermutation(s: seq<real>, t: seq<real>)
    requires |s| > 0 && multiset(s) == multiset(t)
    ensures |t| == |s| && Average(s) == Average(t)
  {
    assert |t| == |multiset(t)| == |multiset(s)| == |s|;
    SumPermutation(s, t);
  }

  // ---------------------------------------------------------------------
  // Properties of variance

  /** The expansion of a sum of squared deviations from `m`:
      sumsq - 2 m sum + n m^2. */
  function Expanded(sum: real, sumsq: real, n: real, m: real): real {
    sumsq - 2.0 * m * sum + n * m * m
  }

  lemma {:induction false} SumSqDevExpand(s: seq<real>, m: real)
    ensures SumSqDev(s, m) == Expanded(Sum(s), SumSq(s), |s| as real, m)
  {
    if s != [] {
      var p := s[..|s| - 1];
      var x := s[|s| - 1];
      SumSqDevExpand(p, m);
      ExpandedStep(Sum(p), SumSq(p), |p| as real, m, x);
    }
  }

  lemma ExpandedStep(sum: real, sumsq: real, n: real, m: real, x: real)
    ensures Expanded(sum, sumsq, n, m) + (x - m) * (x - m)
      == Expanded(sum + x, sumsq + x * x, n + 1.0, m)
  {
  }

  lemma MulDiv(a: real, n: real)
    requires n > 0.0
    ensures n * (a / n) == a
  {
  }

  /** At the mean, the expansion is the one-pass numerator sumsq - sum^2 / n. */
  lemma ExpandedAtMean(sum: real, sumsq: real, n: real)
    requires n >= 2.0
    ensures Expanded(sum, sumsq, n, sum / n) == sumsq - sum * sum / n
  {
    var m := sum / n;
    MulDiv(sum, n);
    assert sum * sum / n == n * m * m;
    assert 2.0 * m * sum == 2.0 * n * m * m;
  }

  /** The one-pass formula the routine evaluates is the unbiased sample variance. */
  lemma {:induction false} OnePassIsSampleVariance(s: seq<real>)
    requires |s| >= 2
    ensures OnePassVariance(Sum(s), SumSq(s), |s| as real) == SampleVariance(s)
  {
    var n := |s| as real;
    var dev := SumSqDev(s, Average(s));
    SumSqDevExpand(s, Average(s));
    ExpandedAtMean(Sum(s), SumSq(s), n);
    OnePassOfNumerator(Sum(s), SumSq(s), dev, |s|);
  }

  lemma OnePassOfNumerator(sum: real, sumsq: real, dev: real, n: nat)
    requires n >= 2 && dev == sumsq - sum * sum / (n as real)
    ensures OnePassVariance(sum, sumsq, n as real) == dev / ((n - 1) as real)
  {
  }

  lemma {:induction false} SumSqDevNonNegative(s: seq<real>, m: real)
    ensures SumSqDev(s, m) >= 0.0
  {
    if s != [] {
      SumSqDevNonNegative(s[..|s| - 1], m);
      var d := s[|s| - 1] - m;
      assert d * d >= 0.0;
    }
  }

  /** The variance is never negative. */
  lemma {:induction false} VarianceNonNegative(s: seq<real>)
    requires |s| >= 2
    ensures SampleVariance(s) >= 0.0
  {
    SumSqDevNonNegative(s, Average(s));
  }

  /** Two elements {a, b} have variance (b - a)^2 / 2. */
  lemma VarianceOfTwo(a: real, b: real)
    ensures SampleVariance([a, b]) == (b - a) * (b - a) / 2.0
  {
    var s := [a, b];
    assert s[..1] == [a] && s[..1][..0] == [];
    var m := (a + b) / 2.0;
    assert Sum(s) == Sum([a]) + b == a + b;
    assert Average(s) == m;
    assert SumSqDev(s, m) == SumSqDev([a], m) + (b - m) * (b - m);
    assert SumSqDev([a], m) == (a - m) * (a - m);
    assert (a - m) * (a - m) + (b - m) * (b - m) == (b - a) * (b - a) / 2.0;
  }

  /** Two ints {a, b} have variance (b - a)^2 / 2 in int division: the
      squared difference is never negative, so truncation is the floor. */
  lemma VarianceOfTwoIntsAll(a: int, b: int)
    ensures TruncToInt(SampleVariance(Reals([a, b]))) == (b - a) * (b - a) / 2
  {
    assert Reals([a, b]) == [a as real, b as real];
    VarianceOfTwo(a as real, b as real);
    var d := (b - a) * (b - a);
    assert ((b - a) as real) * ((b - a) as real) == d as real;
    assert d >= 0;
    var v := d as real / 2.0;
    assert (d / 2) as real <= v < (d / 2) as real + 1.0;
  }

  /** The int list {-10, 27} has variance 684.5, truncated to 684. */
  lemma VarianceOfTwoInts()
    ensures TruncToInt(SampleVariance(Reals([-10, 27]))) == 684
  {
    VarianceOfTwoIntsAll(-10, 27);
  }

  // ---------------------------------------------------------------------
  // Properties of quantile

  lemma LessIsStrictTotal()
    ensures Sorting.StrictOrder(Less) && Sorting.Total(Less)
  {
  }

  /** A sequence is sorted by `Less` exactly when it is non-descending pairwise. */
  lemma {:induction false} SortedByLess(t: seq<real>)
    ensures Sorting.SortedBy(t, Less) <==> forall i, j :: 0 <= i < j < |t| ==> t[i] <= t[j]
  {
  }

  /** The sorted copy is the unique ascending permutation of the data:
      quantile's answer does not depend on how the copy was sorted. */
  lemma {:induction false} SortedCopyIsAscendingPermutation(s: seq<real>, t: seq<real>)
    requires multiset(t) == multiset(s)
    requires forall i, j :: 0 <= i < j < |t| ==> t[i] <= t[j]
    ensures SortedCopy(s) == t
  {
    LessIsStrictTotal();
    Sorting.SortBySorted(s, Less);
    SortedByLess(t);
    Sorting.SortedPermutationUnique(SortedCopy(s), t, Less);
  }

  lemma {:induction false} SortedCopyFacts(s: seq<real>)
    ensures |SortedCopy(s)| == |s|
    ensures multiset(SortedCopy(s)) == multiset(s)
    ensures forall i, j :: 0 <= i < j < |SortedCopy(s)| ==> SortedCopy(s)[i] <= SortedCopy(s)[j]
  {
    assert |SortedCopy(s)| == |multiset(SortedCopy(s))| == |s|;
    LessIsStrictTotal();
    Sorting.SortBySorted(s, Less);
    SortedByLess(SortedCopy(s));
  }

  /** Every quantile is one of the data values. */
  lemma {:induction false} QuantileIsElement(s: seq<real>, q: real)
    requires 0.0 <= q <= 1.0 && |s| > 0
    ensures SortedCopy(s)[QuantileIndex(q, |s|)] in s
  {
    SortedCopyFacts(s);
    var t := SortedCopy(s);
    assert t[QuantileIndex(q, |s|)] in multiset(t);
  }

  /** quantile 0 is the minimum and quantile 1 the maximum. */
  lemma {:induction false} QuantileExtremes(s: seq<real>)
    requires |s| > 0
    ensures forall i :: 0 <= i < |s| ==> SortedCopy(s)[QuantileIndex(0.0, |s|)] <= s[i]
    ensures forall i :: 0 <= i < |s| ==> s[i] <= SortedCopy(s)[QuantileIndex(1.0, |s|)]
  {
    SortedCopyFacts(s);
    var t := SortedCopy(s);
    assert QuantileIndex(0.0, |s|) == 0;
    forall i | 0 <= i < |s| ensures t[0] <= s[i] <= t[|s| - 1] {
      assert s[i] in multiset(t);
      var k :| 0 <= k < |t| && t[k] == s[i];
    }
  }

  /** A single element is every quantile of itself. */
  lemma QuantileOfOne(x: real, q: real)
    requires 0.0 <= q <= 1.0
    ensures SortedCopy([x])[QuantileIndex(q, 1)] == x
  {
    QuantileIsElement([x], q);
  }

  // ---------------------------------------------------------------------
  // Properties of isSorted

  /** No adjacent descent is the same as pairwise non-descending order. */
  lemma {:induction false} NoDescentIffAscending(s: seq<real>)
    ensures NoDescent(s) <==> forall i, j :: 0 <= i < j < |s| ==> s[i] <= s[j]
  {
    if NoDescent(s) {
      forall i, j | 0 <= i < j < |s| ensures s[i] <= s[j] {
        AscendingStep(s, i, j);
      }
    }
  }

  lemma {:induction false} AscendingStep(s: seq<real>, i: nat, j: nat)
    requires NoDescent(s) && i <= j < |s|
    ensures s[i] <= s[j]
    decreases j - i
  {
    if i < j {
      AscendingStep(s, i + 1, j);
    }
  }

  /** Empty and single-element ranges are sorted. */
  lemma {:induction false} ShortIsSorted(s: seq<real>)
    requires |s| < 2
    ensures NoDescent(s)
  {
  }
}
