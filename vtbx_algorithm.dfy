/**
 * include/vtbx/algorithm.h: the same search as
 * include/xcp-ng/generic/algorithm.h under the `vtbx_` prefix.  Each
 * function's code is identical to its `xcp_` twin, so each is modelled by
 * that twin and carries the same contract.
 */
module VtbxAlgorithm {
  import XcpAlgorithm

  /** `vtbx_pred_str_equal`. */
  function PredStrEqual(elem: string, needle: string): (r: bool)
    ensures XcpAlgorithm.IsCString(elem) && XcpAlgorithm.IsCString(needle) ==> (r <==> elem == needle)
  {
    XcpAlgorithm.PredStrEqual(elem, needle)
  }

  /** `vtbx_arr_index_of`. */
  method ArrIndexOf<T, N>(arr: array<T>, n: nat, needle: N, pred: (T, N) -> bool) returns (r: nat)
    requires n <= arr.Length && n < XcpAlgorithm.SIZE_MAX
    ensures r < n || r == XcpAlgorithm.SIZE_MAX
    ensures r < n ==> pred(arr[r], needle)
    ensures r < n ==> forall i :: 0 <= i < r ==> !pred(arr[i], needle)
    ensures r == XcpAlgorithm.SIZE_MAX <==> forall i :: 0 <= i < n ==> !pred(arr[i], needle)
  {
    r := XcpAlgorithm.ArrIndexOf(arr, n, needle, pred);
  }

  /** `vtbx_str_arr_index_of`. */
  method StrArrIndexOf(arr: array<string>, n: nat, needle: string) returns (r: nat)
    requires n <= arr.Length && n < XcpAlgorithm.SIZE_MAX
    requires XcpAlgorithm.IsCString(needle) && forall i :: 0 <= i < n ==> XcpAlgorithm.IsCString(arr[i])
    ensures r < n || r == XcpAlgorithm.SIZE_MAX
    ensures r < n ==> arr[r] == needle && needle !in arr[..r]
    ensures r == XcpAlgorithm.SIZE_MAX <==> needle !in arr[..n]
  {
    r := XcpAlgorithm.StrArrIndexOf(arr, n, needle);
  }
}
