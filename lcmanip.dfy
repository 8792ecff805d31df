/** Trimming a light curve to a window of dates.

    filterLightCurve keeps the observations whose time lies in [date1, date2]
    from three parallel arrays. It never looks at the whole array: it finds
    the first time at or after `date1`, then from there the first time after
    `date2`, and keeps what lies between the two. That is the window only when
    `times` is sorted, which the routine demands of its callers (and which it
    does not check).
 */
module LcManip {
  import opened Errors
  import Stats

  /** The first index at or after `from` whose time is at least `date1`,
      or |times| if there is none. */
  function FirstOk(times: seq<real>, date1: real, from: nat): (k: nat)
    requires from <= |times|
    ensures from <= k <= |times|
    ensures forall i :: from <= i < k ==> times[i] < date1
    ensures k < |times| ==> times[k] >= date1
    decreases |times| - from
  {
    if from == |times| || times[from] >= date1 then from
    else FirstOk(times, date1, from + 1)
  }

  /** The first index at or after `from` whose time exceeds `date2`,
      or |times| if there is none. */
  function FirstNotOk(times: seq<real>, date2: real, from: nat): (k: nat)
    requires from <= |times|
    ensures from <= k <= |times|
    ensures forall i :: from <= i < k ==> times[i] <= date2
    ensures k < |times| ==> times[k] > date2
    decreases |times| - from
  {
    if from == |times| || times[from] > date2 then from
    else FirstNotOk(times, date2, from + 1)
  }

  /** The bounds [lo, hi) of the range filterLightCurve keeps. */
  function KeptRange(times: seq<real>, date1: real, date2: real): (r: (nat, nat))
    ensures r.0 <= r.1 <= |times|
  {
    var lo := FirstOk(times, date1, 0);
    (lo, FirstNotOk(times, date2, lo))
  }

  /** filterLightCurve(): fails with NoValidTimes, leaving all three arrays
      as they were, when the kept range is empty; otherwise trims each array
      to the kept range. */
  method FilterLightCurve(date1: real, date2: real,
                          times: seq<real>, arr1: seq<real>, arr2: seq<real>)
    returns (status: Outcome, newTimes: seq<real>, newArr1: seq<real>, newArr2: seq<real>)
    requires |arr1| == |times| && |arr2| == |times|
    ensures status.Fail? <==> KeptRange(times, date1, date2).0 == KeptRange(times, date1, date2).1
    ensures status.Fail? ==>
      status.error == NoValidTimes && newTimes == times && newArr1 == arr1 && newArr2 == arr2
    ensures status.Pass? ==>
      var (lo, hi) := KeptRange(times, date1, date2);
      newTimes == times[lo..hi] && newArr1 == arr1[lo..hi] && newArr2 == arr2[lo..hi]
  {
    var firstOk, firstNotOk := |times|, |times|;

    var curTime := 0;
    while curTime < |times|
      invariant 0 <= curTime <= |times|
      invariant forall i :: 0 <= i < curTime ==> times[i] < date1
      invariant firstOk == |times|
    {
      if times[curTime] >= date1 {
        firstOk := curTime;
        break;
      }
      curTime := curTime + 1;
    }
    assert firstOk == FirstOk(times, date1, 0);

    curTime := firstOk;
    while curTime < |times|
      invariant firstOk <= curTime <= |times|
      invariant forall i :: firstOk <= i < curTime ==> times[i] <= date2
      invariant firstNotOk == |times|
    {
      if times[curTime] > date2 {
        firstNotOk := curTime;
        break;
      }
      curTime := curTime + 1;
    }
    assert firstNotOk == FirstNotOk(times, date2, firstOk);

    if firstOk == firstNotOk {
      status := Fail(NoValidTimes);
      newTimes, newArr1, newArr2 := times, arr1, arr2;
    } else {
      var offsetNotOk, offsetOk := firstNotOk, firstOk;
      var temp1, temp2, tempTimes := arr1, arr2, times;
      // delete the back, then the front
      temp1 := temp1[..offsetNotOk];
      temp1 := temp1[offsetOk..];
      temp2 := temp2[..offsetNotOk];
      temp2 := temp2[offsetOk..];
      tempTimes := tempTimes[..offsetNotOk];
      tempTimes := tempTimes[offsetOk..];
      status := Pass;
      newTimes, newArr1, newArr2 := tempTimes, temp1, temp2;
    }
  }

  // ---------------------------------------------------------------------
  // Properties

  /** On sorted times the kept range is exactly the set of indices whose
      time lies in [date1, date2]; since the same range is cut from all three
      arrays, the parallel measurements of those times are the ones kept. */
  lemma {:induction false} KeptRangeIsWindow(times: seq<real>, date1: real, date2: real)
    requires Stats.NoDescent(times)
    ensures var (lo, hi) := KeptRange(times, date1, date2);
      forall i :: 0 <= i < |times| ==> (lo <= i < hi <==> date1 <= times[i] <= date2)
  {
    var (lo, hi) := KeptRange(times, date1, date2);
    Stats.NoDescentIffAscending(times);
    forall i | 0 <= i < |times| ensures lo <= i < hi <==> date1 <= times[i] <= date2 {
      if lo <= i < hi {
        assert times[lo] <= times[i];
      } else if i >= hi {
        assert times[hi] <= times[i];
      }
    }
  }

  /** On sorted times filterLightCurve fails exactly when no time lies in
      [date1, date2]. */
  lemma {:induction false} FailsIffNoTimeInWindow(times: seq<real>, date1: real, date2: real)
    requires Stats.NoDescent(times)
    ensures var (lo, hi) := KeptRange(times, date1, date2);
      lo == hi <==> forall i :: 0 <= i < |times| ==> !(date1 <= times[i] <= date2)
  {
    var (lo, hi) := KeptRange(times, date1, date2);
    KeptRangeIsWindow(times, date1, date2);
    if lo < hi {
      assert date1 <= times[lo] <= date2;
    }
  }

  /** A reversed window (date2 < date1) always fails, sorted input or not:
      the time at the first index kept is at least date1 and so exceeds date2. */
  lemma {:induction false} ReversedWindowFails(times: seq<real>, date1: real, date2: real)
    requires date2 < date1
    ensures KeptRange(times, date1, date2).0 == KeptRange(times, date1, date2).1
  {
    var lo := FirstOk(times, date1, 0);
    if lo < |times| {
      assert times[lo] > date2;
    }
  }

  /** Without the sortedness precondition the scan can miss times in the
      window: in [1, 5, 2] with window [2, 4] it stops at 5 and keeps nothing. */
  lemma UnsortedTimesMayBeLost()
    ensures var times := [1.0, 5.0, 2.0];
      && 2.0 <= times[2] <= 4.0
      && KeptRange(times, 2.0, 4.0).0 == KeptRange(times, 2.0, 4.0).1
  {
    var times := [1.0, 5.0, 2.0];
    assert FirstOk(times, 2.0, 0) == 1 by {
      assert FirstOk(times, 2.0, 1) == 1;
    }
    assert FirstNotOk(times, 4.0, 1) == 1;
  }
}
