/** Light-curve preprocessing on parallel arrays: dropping observations whose
    error exceeds a threshold, and sorting observations by time.

    A light curve is held as parallel sequences `times`, `data` (and `errs`)
    in which index i describes one observation. Each routine works on private
    copies and swaps them into its in/out parameters at the end; a method
    here takes the arrays as values and returns the arrays the caller ends up
    with.
 */
module LcIn {
  import Sorting
  import Stats

  /** One observation: a time, the measurement taken then, and its error. */
  datatype Triple = Triple(time: real, data: real, error: real)

  /** The observations described by three parallel arrays. */
  function Zip3(times: seq<real>, data: seq<real>, errs: seq<real>): (r: seq<Triple>)
    requires |times| == |data| == |errs|
    ensures |r| == |times|
  {
    seq(|times|, i requires 0 <= i < |times| => Triple(times[i], data[i], errs[i]))
  }

  /** The (time, measurement) pairs described by two parallel arrays. */
  function Zip2(times: seq<real>, data: seq<real>): (r: seq<(real, real)>)
    requires |times| == |data|
    ensures |r| == |times|
  {
    seq(|times|, i requires 0 <= i < |times| => (times[i], data[i]))
  }

  lemma {:induction false} Zip2Prefix(times: seq<real>, data: seq<real>, i: nat)
    requires |times| == |data| && i < |times|
    ensures Zip2(times, data)[..i + 1] == Zip2(times, data)[..i] + [(times[i], data[i])]
  {
  }

  lemma {:induction false} Zip2Snoc(times: seq<real>, data: seq<real>, t: real, d: real)
    requires |times| == |data|
    ensures Zip2(times + [t], data + [d]) == Zip2(times, data) + [(t, d)]
  {
  }

  lemma {:induction false} Zip3Prefix(times: seq<real>, data: seq<real>, errs: seq<real>, i: nat)
    requires |times| == |data| == |errs| && i < |times|
    ensures Zip3(times, data, errs)[..i + 1]
      == Zip3(times, data, errs)[..i] + [Triple(times[i], data[i], errs[i])]
  {
  }

  lemma {:induction false} Zip3Snoc(times: seq<real>, data: seq<real>, errs: seq<real>,
                                    t: real, d: real, e: real)
    requires |times| == |data| == |errs|
    ensures Zip3(times + [t], data + [d], errs + [e]) == Zip3(times, data, errs) + [Triple(t, d, e)]
  {
  }

  // ---------------------------------------------------------------------
  // errorFilter

  /** The observations whose error is at most `errMax`, in their original order. */
  function WithinError(ts: seq<Triple>, errMax: real): seq<Triple> {
    if ts == [] then []
    else (if ts[0].error <= errMax then [ts[0]] else []) + WithinError(ts[1..], errMax)
  }

  /** `a` is what is left of `b` after deleting some of its elements. */
  ghost predicate IsSubsequence<T>(a: seq<T>, b: seq<T>) {
    if b == [] then a == []
    else
      || (a != [] && a[0] == b[0] && IsSubsequence(a[1..], b[1..]))
      || IsSubsequence(a, b[1..])
  }

  /** errorFilter decides each observation on its own: filtering a
      concatenation filters each part. */
  lemma {:induction false} WithinErrorAppend(a: seq<Triple>, b: seq<Triple>, errMax: real)
    ensures WithinError(a + b, errMax) == WithinError(a, errMax) + WithinError(b, errMax)
  {
    if a == [] {
      assert a + b == b;
    } else {
      assert (a + b)[0] == a[0];
      assert (a + b)[1..] == a[1..] + b;
      WithinErrorAppend(a[1..], b, errMax);
      var head := if a[0].error <= errMax then [a[0]] else [];
      var wa, wb := WithinError(a[1..], errMax), WithinError(b, errMax);
      assert WithinError(a + b, errMax) == head + (wa + wb);
      assert head + (wa + wb) == (head + wa) + wb;
    }
  }

  lemma {:induction false} WithinErrorSnoc(ts: seq<Triple>, k: nat, errMax: real)
    requires k < |ts|
    ensures WithinError(ts[..k + 1], errMax)
      == WithinError(ts[..k], errMax) + (if ts[k].error <= errMax then [ts[k]] else [])
  {
    assert ts[..k + 1] == ts[..k] + [ts[k]];
    WithinErrorAppend(ts[..k], [ts[k]], errMax);
    assert [ts[k]][1..] == [];
  }

  lemma {:induction false} Zip3Erase(t: seq<real>, d: seq<real>, e: seq<real>, i: nat)
    requires |t| == |d| == |e| && i < |t|
    ensures Zip3(t[..i] + t[i + 1..], d[..i] + d[i + 1..], e[..i] + e[i + 1..])
      == Zip3(t, d, e)[..i] + Zip3(t, d, e)[i + 1..]
  {
  }

  /** The state of errorFilter's scan after it has looked at the first `k`
      original observations: the copies hold the kept ones among those,
      followed by the unexamined rest, and the index `i` points just past the
      kept ones. */
  ghost predicate ScanState(cur: seq<Triple>, orig: seq<Triple>, k: nat, i: nat, errMax: real) {
    && k <= |orig|
    && i == |WithinError(orig[..k], errMax)|
    && cur == WithinError(orig[..k], errMax) + orig[k..]
  }

  /** One step of the scan: the observation at index `i` is the next original
      one; keeping it advances the index, erasing it leaves the index alone. */
  lemma {:induction false} ScanStep(cur: seq<Triple>, orig: seq<Triple>, k: nat, i: nat, errMax: real)
    requires ScanState(cur, orig, k, i, errMax) && i < |cur|
    ensures k < |orig| && cur[i] == orig[k]
    ensures cur[i].error <= errMax ==> ScanState(cur, orig, k + 1, i + 1, errMax)
    ensures cur[i].error > errMax ==> ScanState(cur[..i] + cur[i + 1..], orig, k + 1, i, errMax)
  {
    var kept := WithinError(orig[..k], errMax);
    var rest := orig[k..];
    assert cur[i] == rest[0] == orig[k];
    assert rest == [orig[k]] + orig[k + 1..];
    WithinErrorSnoc(orig, k, errMax);
    if cur[i].error <= errMax {
      KeepStep(kept, orig[k], orig[k + 1..]);
    } else {
      EraseStep(kept, orig[k], orig[k + 1..]);
    }
  }

  lemma KeepStep(kept: seq<Triple>, t: Triple, rest: seq<Triple>)
    ensures kept + ([t] + rest) == (kept + [t]) + rest
  {
  }

  lemma EraseStep(kept: seq<Triple>, t: Triple, rest: seq<Triple>)
    ensures var cur := kept + ([t] + rest); cur[..|kept|] + cur[|kept| + 1..] == kept + rest
  {
    var cur := kept + ([t] + rest);
    assert cur[..|kept|] == kept;
    assert cur[|kept| + 1..] == rest;
  }

  /** errorFilter(): walks the copies with an index, keeping an observation
      whose error is at most `errMax` and erasing it from all three copies
      otherwise. */
  method ErrorFilter(errMax: real, times: seq<real>, data: seq<real>, errs: seq<real>)
    returns (newTimes: seq<real>, newData: seq<real>, newErrs: seq<real>)
    requires |times| == |data| == |errs|
    ensures |newTimes| == |newData| == |newErrs|
    ensures Zip3(newTimes, newData, newErrs) == WithinError(Zip3(times, data, errs), errMax)
  {
    var tempTimes, tempData, tempErrs := times, data, errs;
    ghost var orig := Zip3(times, data, errs);
    ghost var k := 0;
    var i := 0;
    while i < |tempErrs|
      invariant |tempTimes| == |tempData| == |tempErrs|
      invariant ScanState(Zip3(tempTimes, tempData, tempErrs), orig, k, i, errMax)
      decreases |tempErrs| - i
    {
      ghost var cur := Zip3(tempTimes, tempData, tempErrs);
      ScanStep(cur, orig, k, i, errMax);
      assert tempErrs[i] == cur[i].error;
      if tempErrs[i] <= errMax {
        i := i + 1;
      } else {
        Zip3Erase(tempTimes, tempData, tempErrs, i);
        tempTimes := tempTimes[..i] + tempTimes[i + 1..];
        tempData := tempData[..i] + tempData[i + 1..];
        tempErrs := tempErrs[..i] + tempErrs[i + 1..];
      }
      k := k + 1;
    }
    assert orig[..k] == orig;
    newTimes, newData, newErrs := tempTimes, tempData, tempErrs;
  }

  /** Every observation errorFilter keeps has error at most `errMax`. */
  lemma {:induction false} WithinErrorBound(ts: seq<Triple>, errMax: real)
    ensures forall t :: t in WithinError(ts, errMax) ==> t.error <= errMax
  {
    if ts != [] {
      WithinErrorBound(ts[1..], errMax);
    }
  }

  /** errorFilter removes an observation exactly when its error exceeds
      `errMax`: every other one keeps all its occurrences. */
  lemma {:induction false} WithinErrorCount(ts: seq<Triple>, errMax: real, t: Triple)
    ensures multiset(WithinError(ts, errMax))[t] == if t.error <= errMax then multiset(ts)[t] else 0
  {
    if ts != [] {
      WithinErrorCount(ts[1..], errMax, t);
      assert ts == [ts[0]] + ts[1..];
    }
  }

  /** errorFilter keeps the relative order of what it keeps. */
  lemma {:induction false} WithinErrorIsSubsequence(ts: seq<Triple>, errMax: real)
    ensures IsSubsequence(WithinError(ts, errMax), ts)
  {
    if ts != [] {
      WithinErrorIsSubsequence(ts[1..], errMax);
      var w := WithinError(ts[1..], errMax);
      if ts[0].error <= errMax {
        assert ([ts[0]] + w)[1..] == w;
      } else {
        assert [] + w == w;
      }
    }
  }

  /** An observation survives errorFilter exactly when it was in the input
      and its error is at most `errMax`. */
  lemma {:induction false} ErrorFilterKeepsObservations(ts: seq<Triple>, errMax: real, t: Triple)
    ensures t in WithinError(ts, errMax) <==> t in ts && t.error <= errMax
  {
    WithinErrorCount(ts, errMax, t);
    assert t in WithinError(ts, errMax) <==> multiset(WithinError(ts, errMax))[t] > 0;
  }

  // ---------------------------------------------------------------------
  // sortByTime, two arrays

  /** std::pair's `operator<`: by time, ties broken by measurement. */
  function PairLess(p: (real, real), q: (real, real)): bool {
    p.0 < q.0 || (!(q.0 < p.0) && p.1 < q.1)
  }

  lemma PairLessStrictTotal()
    ensures Sorting.StrictOrder(PairLess) && Sorting.Total(PairLess)
  {
  }

  /** Sorted pairs have their first components non-descending. */
  lemma {:induction false} PairsSortedTimesSorted(times: seq<real>, data: seq<real>)
    requires |times| == |data|
    requires Sorting.SortedBy(Zip2(times, data), PairLess)
    ensures Stats.NoDescent(times)
  {
    var z := Zip2(times, data);
    forall i | 0 <= i < |times| - 1 ensures !(times[i + 1] < times[i]) {
      assert !PairLess(z[i + 1], z[i]);
    }
  }

  /** sortByTime(times, data): packs the pairs, sorts them, unpacks them. */
  method SortByTime2(times: seq<real>, data: seq<real>)
    returns (newTimes: seq<real>, newData: seq<real>)
    requires |times| == |data|
    ensures |newTimes| == |newData| == |times|
    ensures Sorting.SortedBy(Zip2(newTimes, newData), PairLess)
    ensures multiset(Zip2(newTimes, newData)) == multiset(Zip2(times, data))
    ensures Stats.NoDescent(newTimes)
  {
    var sortableVec: seq<(real, real)> := [];
    var i := 0;
    while i < |times|
      invariant 0 <= i <= |times|
      invariant sortableVec == Zip2(times, data)[..i]
    {
      Zip2Prefix(times, data, i);
      sortableVec := sortableVec + [(times[i], data[i])];
      i := i + 1;
    }
    assert sortableVec == Zip2(times, data);
    SortedPairs(sortableVec);
    sortableVec := Sorting.SortBy(sortableVec, PairLess);

    var tempTimes: seq<real>, tempData: seq<real> := [], [];
    var j := 0;
    while j < |sortableVec|
      invariant 0 <= j <= |sortableVec|
      invariant |tempTimes| == j && |tempData| == j
      invariant Zip2(tempTimes, tempData) == sortableVec[..j]
    {
      Zip2Snoc(tempTimes, tempData, sortableVec[j].0, sortableVec[j].1);
      assert sortableVec[..j + 1] == sortableVec[..j] + [sortableVec[j]];
      tempTimes := tempTimes + [sortableVec[j].0];
      tempData := tempData + [sortableVec[j].1];
      j := j + 1;
    }
    assert sortableVec[..j] == sortableVec;
    PairsSortedTimesSorted(tempTimes, tempData);
    newTimes, newData := tempTimes, tempData;
  }

  /** The pair sort's result is sorted by the pair order. */
  lemma {:induction false} SortedPairs(v: seq<(real, real)>)
    ensures Sorting.SortedBy(Sorting.SortBy(v, PairLess), PairLess)
  {
    PairLessStrictTotal();
    Sorting.SortBySorted(v, PairLess);
  }

  /** The pair order is total, so sortByTime(times, data) has exactly one
      possible outcome: the lexicographically sorted sequence of the pairs. */
  lemma {:induction false} SortByTime2Unique(times: seq<real>, data: seq<real>,
                          t1: seq<real>, d1: seq<real>, t2: seq<real>, d2: seq<real>)
    requires |times| == |data| && |t1| == |d1| && |t2| == |d2|
    requires Sorting.SortedBy(Zip2(t1, d1), PairLess)
    requires Sorting.SortedBy(Zip2(t2, d2), PairLess)
    requires multiset(Zip2(t1, d1)) == multiset(Zip2(times, data))
    requires multiset(Zip2(t2, d2)) == multiset(Zip2(times, data))
    ensures t1 == t2 && d1 == d2
  {
    PairLessStrictTotal();
    Sorting.SortedPermutationUnique(Zip2(t1, d1), Zip2(t2, d2), PairLess);
    assert |t1| == |Zip2(t1, d1)| == |Zip2(t2, d2)| == |t2|;
    forall i | 0 <= i < |t1| ensures t1[i] == t2[i] && d1[i] == d2[i] {
      assert Zip2(t1, d1)[i] == Zip2(t2, d2)[i];
    }
  }

  // ---------------------------------------------------------------------
  // sortByTime, three arrays

  /** Triple's `operator<`: by time only. */
  function TimeLess(a: Triple, b: Triple): bool {
    a.time < b.time
  }

  lemma TimeLessStrict()
    ensures Sorting.StrictOrder(TimeLess)
  {
  }

  lemma {:induction false} TriplesSortedTimesSorted(times: seq<real>, data: seq<real>, errs: seq<real>)
    requires |times| == |data| == |errs|
    requires Sorting.SortedBy(Zip3(times, data, errs), TimeLess)
    ensures Stats.NoDescent(times)
  {
    var z := Zip3(times, data, errs);
    forall i | 0 <= i < |times| - 1 ensures !(times[i + 1] < times[i]) {
      assert !TimeLess(z[i + 1], z[i]);
    }
  }

  /** sortByTime(times, data, errs): packs the triples, sorts them by time
      (equal times in no promised order), unpacks them. */
  method SortByTime3(times: seq<real>, data: seq<real>, errs: seq<real>)
    returns (newTimes: seq<real>, newData: seq<real>, newErrs: seq<real>)
    requires |times| == |data| == |errs|
    ensures |newTimes| == |newData| == |newErrs| == |times|
    ensures Sorting.SortedBy(Zip3(newTimes, newData, newErrs), TimeLess)
    ensures multiset(Zip3(newTimes, newData, newErrs)) == multiset(Zip3(times, data, errs))
    ensures Stats.NoDescent(newTimes)
  {
    var sortableVec: seq<Triple> := [];
    var i := 0;
    while i < |times|
      invariant 0 <= i <= |times|
      invariant sortableVec == Zip3(times, data, errs)[..i]
    {
      Zip3Prefix(times, data, errs, i);
      sortableVec := sortableVec + [Triple(times[i], data[i], errs[i])];
      i := i + 1;
    }
    assert sortableVec == Zip3(times, data, errs);
    SortedTriples(sortableVec);
    sortableVec := Sorting.SortBy(sortableVec, TimeLess);

    var tempTimes: seq<real>, tempData: seq<real>, tempErrs: seq<real> := [], [], [];
    var j := 0;
    while j < |sortableVec|
      invariant 0 <= j <= |sortableVec|
      invariant |tempTimes| == j && |tempData| == j && |tempErrs| == j
      invariant Zip3(tempTimes, tempData, tempErrs) == sortableVec[..j]
    {
      Zip3Snoc(tempTimes, tempData, tempErrs, sortableVec[j].time, sortableVec[j].data, sortableVec[j].error);
      assert sortableVec[..j + 1] == sortableVec[..j] + [sortableVec[j]];
      tempTimes := tempTimes + [sortableVec[j].time];
      tempData := tempData + [sortableVec[j].data];
      tempErrs := tempErrs + [sortableVec[j].error];
      j := j + 1;
    }
    assert sortableVec[..j] == sortableVec;
    TriplesSortedTimesSorted(tempTimes, tempData, tempErrs);
    newTimes, newData, newErrs := tempTimes, tempData, tempErrs;
  }

  /** The triple sort's result is sorted by time. */
  lemma {:induction false} SortedTriples(v: seq<Triple>)
    ensures Sorting.SortedBy(Sorting.SortBy(v, TimeLess), TimeLess)
  {
    TimeLessStrict();
    Sorting.SortBySorted(v, TimeLess);
  }

  /** The two overloads need not agree on the columns they share: for times
      [1, 1] with data [2, 1], the order the three-array sort permits
      (data [2, 1]) is sorted by time but not by the pair order, which the
      two-array sort must follow (data [1, 2]). */
  lemma OverloadsMayDisagreeOnTies()
    ensures Sorting.SortedBy(Zip3([1.0, 1.0], [2.0, 1.0], [0.0, 0.0]), TimeLess)
    ensures !Sorting.SortedBy(Zip2([1.0, 1.0], [2.0, 1.0]), PairLess)
  {
    var z := Zip2([1.0, 1.0], [2.0, 1.0]);
    assert PairLess(z[1], z[0]);
  }

  // ---------------------------------------------------------------------
  // The preprocessing of readWgLightCurve

  /** errorFilter followed by the three-array sortByTime, as readWgLightCurve
      and readWg2LightCurve apply them to the table they read: the result is
      time-sorted, its arrays have equal lengths, every error is at most
      `errMax`, and it holds exactly the observations errorFilter keeps. */
  method FilterAndSort(errMax: real, times: seq<real>, data: seq<real>, errs: seq<real>)
    returns (newTimes: seq<real>, newData: seq<real>, newErrs: seq<real>)
    requires |times| == |data| == |errs|
    ensures |newTimes| == |newData| == |newErrs|
    ensures Stats.NoDescent(newTimes)
    ensures forall i :: 0 <= i < |newErrs| ==> newErrs[i] <= errMax
    ensures multiset(Zip3(newTimes, newData, newErrs))
      == multiset(WithinError(Zip3(times, data, errs), errMax))
  {
    var t, d, e := ErrorFilter(errMax, times, data, errs);
    newTimes, newData, newErrs := SortByTime3(t, d, e);
    WithinErrorBound(Zip3(times, data, errs), errMax);
    forall i | 0 <= i < |newErrs| ensures newErrs[i] <= errMax {
      var z := Zip3(newTimes, newData, newErrs);
      assert z[i] in multiset(z);
      assert z[i] in multiset(Zip3(t, d, e));
    }
  }
}
