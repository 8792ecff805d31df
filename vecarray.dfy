/** Copying between vectors and heap arrays.

    A vector is a sequence value; a C array is a Dafny `array`. The element
    type must be default-constructible in the source, which is the `T(0)`
    characteristic here: `new T[n]` first fills the array with default values.
 */
module VecArray {
  import opened Errors

  /** vecToArr(): an empty vector is refused with a length error; otherwise a
      new array holds the vector's elements in the same order. */
  method VecToArr<T(0)>(vec: seq<T>) returns (r: Result<array<T>>)
    ensures r.Failure? <==> |vec| == 0
    ensures r.Failure? ==> r.error == LengthError
    ensures r.Success? ==> fresh(r.value) && r.value[..] == vec
  {
    var n := |vec|;
    if n <= 0 {
      return Failure(LengthError);
    }
    var arr := new T[n];
    var i := 0;
    while i < n
      invariant 0 <= i <= n
      invariant arr[..i] == vec[..i]
      modifies arr
    {
      arr[i] := vec[i];
      assert arr[..i + 1] == arr[..i] + [vec[i]];
      assert vec[..i + 1] == vec[..i] + [vec[i]];
      i := i + 1;
    }
    assert arr[..] == arr[..n];
    assert vec[..n] == vec;
    return Success(arr);
  }

  /** arrToVec(): a vector of the first `n` elements of the array, in order.
      The array must hold at least `n` elements; `n == 0` gives the empty
      vector. */
  method ArrToVec<T>(arr: array<T>, n: nat) returns (vec: seq<T>)
    requires n <= arr.Length
    ensures vec == arr[..n]
  {
    vec := [];
    var i := 0;
    while i < n
      invariant 0 <= i <= n
      invariant vec == arr[..i]
    {
      vec := vec + [arr[i]];
      assert arr[..i + 1] == arr[..i] + [arr[i]];
      i := i + 1;
    }
  }

  /** Converting a vector to an array and back gives the vector, and only
      the empty vector cannot make the trip. */
  method RoundTrip<T(0)>(vec: seq<T>) returns (r: Result<seq<T>>)
    ensures r.Failure? <==> |vec| == 0
    ensures r.Failure? ==> r.error == LengthError
    ensures r.Success? ==> r.value == vec
  {
    var a := VecToArr(vec);
    if a.Failure? {
      return Failure(a.error);
    }
    var back := ArrToVec(a.value, |vec|);
    return Success(back);
  }
}
