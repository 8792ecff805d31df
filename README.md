# kpfutils core: statistics and light-curve preprocessing, in Dafny

This project models the algorithmic core of the kpfutils C++ utility library
and proves properties of the model. The core has five parts:

- **Generic statistics** (`stats.tmp.h`): `mean`, `variance`, `quantile` and
  `isSorted` over a read-only range. A range of doubles is a `seq<real>` and
  a range of ints is a `seq<int>`. For ints the routines accumulate in the
  element type, divide in floating point and convert back with
  `static_cast`. The model computes in exact reals and truncates toward zero
  (`Stats.TruncToInt`).
- **Light-curve input preprocessing** (`lcin.cpp`):
  - `errorFilter` drops the observations whose error exceeds a bound;
  - the two `sortByTime` overloads co-sort two or three parallel arrays by time;
  - `readWgLightCurve` and `readWg2LightCurve` run `errorFilter` and then the
    three-array `sortByTime` on the table they read.
- **Date-window trimming** (`lcmanip.cpp`): `filterLightCurve` trims three
  parallel arrays to the observations whose time lies in `[date1, date2]`.
- **Vector/array conversion** (`vecarray.tmp.h`): `vecToArr` and `arrToVec`.
- **File-name lists** (`readnames.cpp`): `isNewLine` and the reading loop of
  `readFileNames`.

Modelling conventions:

- **Exceptions.** A C++ exception becomes a `Failure` or `Fail` value that
  carries an error kind (module `Errors`).
- **Copy-and-swap.** The copy-and-swap routines take their in/out vectors as
  sequence values. They return the new contents. On failure they return the
  inputs unchanged, which is the strong exception guarantee the source
  documents.
- **Parallel arrays.** Parallel arrays are required to have equal lengths.
  Every routine that takes them documents this, as an invariant, a
  precondition or a parameter description.
- **Sorting.** The library sorts (`std::sort`, `std::partial_sort_copy`) are
  modelled by one insertion sort, `Sorting.SortBy`. The model proves only what
  those sorts promise: the result is sorted and is a permutation of the input.
  Where the order is total, the sorted permutation is unique, so the choice of
  algorithm does not matter.

Files and modules:

| file | module | models |
|---|---|---|
| `errors.dfy` | `Errors` | exception kinds, `Result`, `Outcome` |
| `sorting.dfy` | `Sorting` | sorting by a strict order; uniqueness of the sorted permutation |
| `stats.dfy` | `Stats` | `mean`, `variance`, `quantile`, `isSorted` |
| `lcin.dfy` | `LcIn` | `errorFilter`, both `sortByTime`, `Triple`, filter-then-sort |
| `lcmanip.dfy` | `LcManip` | `filterLightCurve` |
| `vecarray.dfy` | `VecArray` | `vecToArr`, `arrToVec` |
| `readnames.dfy` | `ReadNames` | `isNewLine`, `readFileNames` |

Where the documentation comments and the code disagree, the model follows the code:

- The `quantile` comment asks for at least two elements, but the code accepts
  a single element. The model accepts one element, and
  `Stats.QuantileOfOne` states the result.
- One `quantile` test comment (`stats.tmp.h:228`) expects `std::domain_error`
  for a quantile outside `[0, 1]`, but the code throws `std::invalid_argument`
  (`Errors.InvalidArgument`). `kpfutils::except::NotEnoughData` derives from
  `std::invalid_argument` (`stats_except.h:26`), so a handler for
  `std::invalid_argument` catches both kinds.
- The `arrToVec` comment demands `n > 0`, but the code handles `n == 0` and
  returns an empty vector. `VecArray.ArrToVec` accepts `n == 0`.
- The `filterLightCurve` comment says a reversed window (`date2 < date1`)
  throws. The code has no separate test for it: it fails because the two
  scans meet. `LcManip.ReversedWindowFails` proves that the code's scans give
  the documented behaviour.
- The label `// Empty line` in `readFileNames` (`readnames.cpp:67`) sits on
  the case where `fgets` returns NULL. A blank line does not take that path:
  `fgets` stores its line feed, and the line gives the empty name.
  `ReadNames.BlankLineGivesEmptyName` states both cases.

## Model

| member | source | states |
|---|---|---|
| Sorting.SortBy | lcin.cpp:102 | the sorted vector has the input's length and is a permutation of it (same multiset) |
| Sorting.SortBySorted | lcin.cpp:102 | for any strict order, the sorted vector has no element less than an earlier one |
| Sorting.SortedPermutationUnique | lcin.cpp:102 | under a strict total order, two sorted permutations of the same data are equal, so the sort's result does not depend on the algorithm |
| Stats.TruncToInt | stats.tmp.h:116 | a double-to-int `static_cast` rounds toward zero: the floor for non-negative values, the ceiling for negative ones |
| Stats.QuantileIndex | stats.tmp.h:271-276 | the index is in range; for q < 1 it is the floor of q·n; for q = 1 it is the last index |
| Stats.MeanReal | stats.tmp.h:95-117 | fails exactly on an empty range, with NotEnoughData; otherwise returns the arithmetic mean |
| Stats.MeanInt | stats.tmp.h:95-117 | fails exactly on an empty range, with NotEnoughData; otherwise returns the mean truncated toward zero |
| Stats.VarianceReal | stats.tmp.h:164-188 | fails exactly on fewer than two elements, with NotEnoughData; otherwise the one-pass result equals the unbiased sample variance (squared deviations from the mean over n − 1) |
| Stats.VarianceInt | stats.tmp.h:164-188 | fails exactly on fewer than two elements, with NotEnoughData; otherwise returns the sample variance truncated toward zero |
| Stats.OnePassIsSampleVariance | stats.tmp.h:186-187 | for every range of two or more elements, the formula (sumsq − sum²/n)/(n − 1) equals the two-pass sample variance |
| Stats.Quantile | stats.tmp.h:249-279 | fails with InvalidArgument when q is outside [0, 1], checked before the data; otherwise fails with NotEnoughData on an empty range; otherwise returns the element at the nearest-rank index of the sorted copy |
| Stats.IsSorted | stats.tmp.h:315-329 | true exactly when no element is less than its predecessor |
| Stats.MeanOfOne | tests/unit_stats.cpp:166-170 | the mean of a one-element range is that element, for every double and for every int |
| Stats.AverageBounds | stats.tmp.h:95-117 | the mean lies between any lower and upper bound of the data |
| Stats.SumPermutation | stats.tmp.h:103-106 | the accumulated sum does not depend on the order of the elements |
| Stats.AveragePermutation | stats.tmp.h:95-117 | reordering the data leaves the mean unchanged |
| Stats.VarianceNonNegative | stats.tmp.h:187 | the sample variance is never negative |
| Stats.VarianceOfTwo | tests/unit_stats.cpp:231-241 | the variance of {a, b} is (b − a)²/2 |
| Stats.VarianceOfTwoIntsAll | stats.tmp.h:147 | for every pair of ints {a, b}, the int variance is (b − a)²/2 in int division, as the test computes it (tests/unit_stats.cpp:235-237) |
| Stats.VarianceOfTwoInts | tests/unit_stats.cpp:234-241 | the int list {−10, 27} of the unit-test fixture has variance 684, the truncated value of 684.5 |
| Stats.SortedCopyIsAscendingPermutation | stats.tmp.h:266-269 | the sorted copy is the only ascending permutation of the data, so quantile's answer does not depend on how it sorts |
| Stats.QuantileIsElement | stats.tmp.h:266-278 | every quantile is one of the data values (no interpolation) |
| Stats.QuantileExtremes | stats.tmp.h:271-276 | quantile 0 is at most every element and quantile 1 at least every element: the minimum and the maximum |
| Stats.QuantileOfOne | stats.tmp.h:262-278 | a one-element range is accepted, and every quantile of it is its element |
| Stats.NoDescentIffAscending | stats.tmp.h:315-329 | having no adjacent descent is the same as being sorted pairwise in ascending order |
| Stats.ShortIsSorted | stats.tmp.h:317-319 | ranges of fewer than two elements are sorted |
| LcIn.ErrorFilter | lcin.cpp:48-73 | the filtered parallel arrays keep equal lengths, and their observations are exactly those of the input whose error is at most errMax, in input order |
| LcIn.WithinErrorBound | lcin.cpp:57-65 | every observation kept has error at most errMax |
| LcIn.WithinErrorCount | lcin.cpp:59-65 | an observation with error at most errMax keeps all its occurrences, and every other observation loses all of them |
| LcIn.WithinErrorIsSubsequence | lcin.cpp:53-66 | the observations kept appear in their original relative order |
| LcIn.ErrorFilterKeepsObservations | lcin.cpp:59-65 | an observation survives exactly when it was in the input and its error is at most errMax |
| LcIn.PairLessStrictTotal | lcin.cpp:94-102 | std::pair's lexicographic `<` on (time, data) is a strict total order |
| LcIn.SortByTime2 | lcin.cpp:93-120 | the arrays keep their length; the (time, data) pairs come out in lexicographic order and form a permutation of the input pairs; the times are ascending |
| LcIn.SortByTime2Unique | lcin.cpp:93-120 | any two outcomes of the two-array sort are equal, so its result is fully determined |
| LcIn.TimeLessStrict | lcin.cpp:131-133 | Triple's `operator<`, which compares times only, is a strict order |
| LcIn.SortByTime3 | lcin.cpp:154-185 | the arrays keep their length; the triples come out ordered by time and form a permutation of the input triples, so each data and error value stays with its time |
| LcIn.OverloadsMayDisagreeOnTies | lcin.cpp:102-164 | for times [1, 1] with data [2, 1], the data order [2, 1] satisfies the three-array sort's time order but not the two-array sort's pair order |
| LcIn.FilterAndSort | lcin.cpp:225-226 | after filtering and sorting, the arrays have equal lengths, times are ascending, every error is at most errMax, and the triples are exactly those the filter keeps |
| LcManip.FirstOk | lcmanip.cpp:48-53 | the first scan stops at the first time at or after date1, or at the end |
| LcManip.FirstNotOk | lcmanip.cpp:56-61 | the second scan stops at the first time after date2, or at the end |
| LcManip.KeptRange | lcmanip.cpp:63-66 | the kept range satisfies begin ≤ firstOk ≤ firstNotOk ≤ end |
| LcManip.FilterLightCurve | lcmanip.cpp:41-96 | fails with NoValidTimes exactly when the kept range is empty, leaving all three arrays unchanged; otherwise cuts the same range from every array |
| LcManip.KeptRangeIsWindow | lcmanip.cpp:28-32 | on sorted times, an index is kept exactly when its time lies in [date1, date2] |
| LcManip.FailsIffNoTimeInWindow | lcmanip.cpp:34-35 | on sorted times, the routine fails exactly when no time lies in [date1, date2] |
| LcManip.ReversedWindowFails | lcmanip.cpp:55 | a window with date2 < date1 always fails, sorted input or not |
| LcManip.UnsortedTimesMayBeLost | lcmanip.cpp:28 | without the sortedness precondition a time inside the window can be lost: [1, 5, 2] with window [2, 4] keeps nothing |
| VecArray.VecToArr | vecarray.tmp.h:56-68 | an empty vector fails with LengthError; otherwise a new array holds the vector's elements in order |
| VecArray.ArrToVec | vecarray.tmp.h:87-96 | the vector holds the first n array elements in order (n = 0 gives the empty vector) |
| VecArray.RoundTrip | vecarray.tmp.h:56-96 | converting a non-empty vector to an array and back gives the same vector; only the empty vector fails |
| ReadNames.IsNewLine | readnames.cpp:27-35 | true exactly for carriage return and line feed |
| ReadNames.CStringSpec | readnames.cpp:78 | `string(buffer)` is the longest NUL-free prefix of the buffer |
| ReadNames.TrimNewlinesSpec | readnames.cpp:75-78 | trimming removes exactly the trailing run of line terminators: the result is a prefix, does not end in a terminator, and only terminators follow it |
| ReadNames.EntryCases | readnames.cpp:67-78 | a non-comment read contributes exactly its trimmed C string; a read that returns NULL (`NoLine`) or a comment line contributes nothing |
| ReadNames.BlankLineGivesEmptyName | readnames.cpp:67-78 | a blank line is not skipped: it contributes the empty name; only a read that returns NULL contributes nothing |
| ReadNames.ReadFileNames | readnames.cpp:53-84 | fails with FileIo exactly when the stream reports an error, leaving the caller's list unchanged; otherwise replaces the list by the names read |
| ReadNames.NamesAppend | readnames.cpp:63-79 | lines read later come later in the list: the list keeps the file's order |
| ReadNames.NamesFromReads | readnames.cpp:63-79 | a name is in the list exactly when some non-comment read produced it |
| ReadNames.NamesAreClean | readnames.cpp:75-78 | no name holds a NUL or ends in a line terminator |
| ReadNames.TrimIdempotent | readnames.cpp:78 | trimming a trimmed name changes nothing |
| ReadNames.TrimKeepsSpaces | readnames.cpp:76-78 | trailing spaces of a name are kept |
| ReadNames.CrLfTrimmed | readnames.cpp:75-78 | a Windows line ending loses both of its characters |
| ReadNames.CommentsOnlyGiveNoNames | readnames.cpp:44-46 | a file of comment lines and reads that return NULL (`NoLine`) gives the empty list, which is allowed |

## Left out

- File I/O is not in this model: opening files (`fileCheckOpen`), `readTable`,
  table writing and light-curve output are external collaborators. The input
  that `readFileNames` reads is modelled as the sequence of what each pass of
  its loop observes (`ReadNames.Step`). The model does not capture how `fgets`
  cuts a long line into 249-character pieces. It only records that each piece
  is a read of its own.
- The NaN utilities and their test are not part of this model: `real` has no
  NaN and no infinity. The statistics' "no NaN" precondition holds by construction.
- Floating-point rounding, overflow and the non-associativity of double
  addition are not modelled: sums are exact reals. The sortedness test and the
  scans compare exact reals.
- Stats.MeanInt, Stats.VarianceInt: these do not model overflow of the int
  accumulators (`sum`, `sumsq` and `sum*sum` in the element type). They also
  do not model the rounding of the final division. This is because the
  integers in the model are unbounded.
- Memory exhaustion (`std::bad_alloc`) and the exception message strings
  (including `lexical_cast` failures) are left out. They do not affect what
  is computed.
- LcIn.SortByTime3: the model does not state the order of observations with
  equal times, because `std::sort` does not promise one. The insertion sort is
  one admissible order. The contract states only what is promised: sorted by
  time, and a permutation of the triples. The two overloads can therefore order
  equal times differently: for times [1, 1] with data [2, 1], the two-array
  sort must give data [1, 2], while the three-array sort may give [2, 1]
  (`LcIn.OverloadsMayDisagreeOnTies`).
- The light-curve readers' file reading is not part of this model.
  `readWgLightCurve` and `readWg2LightCurve` run `errorFilter` and then the
  three-array `sortByTime` (`lcin.cpp:225-226`, `lcin.cpp:274-275`), which is
  modelled as `LcIn.FilterAndSort`. `readMcLightCurve` and `readCsvLightCurve`
  run only the two-array `sortByTime` (`lcin.cpp:312-313`, `lcin.cpp:349-350`),
  which is `LcIn.SortByTime2`.
- VecArray.VecToArr, VecArray.RoundTrip: arrays have no shared ownership
  (`boost::shared_array`). The array is a fresh Dafny array owned by the caller.
- The iterator genericity of the statistics is reduced to sequences of reals
  and of ints. Other value types are not modelled.
- Stats.Quantile, Stats.IsSorted: these are modelled over reals only, though
  the `quantile` test comments (`stats.tmp.h:223-228`) run them on lists of
  ints. They do no arithmetic on elements, only comparisons and copies, so an
  int range carries over exactly as `Stats.Reals` of it.
