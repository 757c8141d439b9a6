/** `argmax` of utils.py. */
module Utils {
  import opened Wrappers

  /**
   * Scans `arr` keeping the largest value seen so far, starting from -1, and
   * its index; only a strictly larger value replaces it. The result is `None`
   * exactly when no element exceeds -1, and otherwise the first index at
   * which the maximum occurs.
   */
  method ArgMax(arr: seq<real>) returns (maxIdx: Option<nat>)
    ensures maxIdx.None? <==> forall i :: 0 <= i < |arr| ==> arr[i] <= -1.0
    ensures maxIdx.Some? ==> maxIdx.value < |arr| && arr[maxIdx.value] > -1.0
    ensures maxIdx.Some? ==> forall i :: 0 <= i < |arr| ==> arr[i] <= arr[maxIdx.value]
    ensures maxIdx.Some? ==> forall i :: 0 <= i < maxIdx.value ==> arr[i] < arr[maxIdx.value]
  {
    var maxItm: real := -1.0;
    maxIdx := None;
    var e := 0;
    while e < |arr|
      invariant 0 <= e <= |arr|
      invariant maxIdx.None? ==> maxItm == -1.0
      invariant maxIdx.Some? ==> maxIdx.value < e && maxItm == arr[maxIdx.value] && maxItm > -1.0
      invariant forall i :: 0 <= i < e ==> arr[i] <= maxItm
      invariant maxIdx.Some? ==> forall i :: 0 <= i < maxIdx.value ==> arr[i] < maxItm
    {
      if arr[e] > maxItm {
        maxItm := arr[e];
        maxIdx := Some(e);
      }
      e := e + 1;
    }
  }
}
