/**
 * Linear search of include/xcp-ng/generic/algorithm.h.
 *
 * The C array of `n` elements of `elemSize` bytes is an `array<T>` whose
 * first `n` elements are searched; the predicate `pred` (an `XcpPredicate`) is a pure
 * function of an element and the needle.  C strings are the characters
 * before their NUL terminator.
 */
module XcpAlgorithm {

  /** `(size_t)-1` on a 64-bit target. */
  const SIZE_MAX: nat := 0xFFFF_FFFF_FFFF_FFFF

  /** A NUL-terminated string holds no NUL before its end. */
  predicate IsCString(s: string) {
    '\0' !in s
  }

  /** The byte `strcmp` reads at `s`: the first character, or the terminator. */
  function Head(s: string): int {
    if s == [] then 0 else s[0] as int
  }

  /** `strcmp`: the difference of the first two characters that differ. */
  function Strcmp(a: string, b: string): int {
    if a == [] || b == [] || a[0] != b[0] then Head(a) - Head(b)
    else Strcmp(a[1..], b[1..])
  }

  /** On C strings `strcmp` returns 0 exactly when the strings are equal. */
  lemma {:induction false} StrcmpZeroIffEqual(a: string, b: string)
    requires IsCString(a) && IsCString(b)
    ensures Strcmp(a, b) == 0 <==> a == b
  {
    if a != [] && b != [] && a[0] == b[0] {
      assert IsCString(a[1..]) && IsCString(b[1..]) by {
        assert forall k :: 0 <= k < |a| - 1 ==> a[1..][k] == a[k + 1];
        assert forall k :: 0 <= k < |b| - 1 ==> b[1..][k] == b[k + 1];
      }
      StrcmpZeroIffEqual(a[1..], b[1..]);
      assert a == [a[0]] + a[1..] && b == [b[0]] + b[1..];
    } else if a != [] && b == [] {
      assert a[0] != '\0';
    } else if a == [] && b != [] {
      assert b[0] != '\0';
    }
  }

  /** `xcp_pred_str_equal`: `!strcmp(elem, needle)`. */
  function PredStrEqual(elem: string, needle: string): (r: bool)
    ensures IsCString(elem) && IsCString(needle) ==> (r <==> elem == needle)
  {
    if IsCString(elem) && IsCString(needle) then
      StrcmpZeroIffEqual(elem, needle);
      Strcmp(elem, needle) == 0
    else
      Strcmp(elem, needle) == 0
  }

  /**
   * `xcp_arr_index_of`: the index of the first of the `n` elements that
   * satisfies `pred`, or `SIZE_MAX` when none does.  An object holds
   * fewer than `SIZE_MAX` elements.
   */
  method ArrIndexOf<T, N>(arr: array<T>, n: nat, needle: N, pred: (T, N) -> bool) returns (r: nat)
    requires n <= arr.Length && n < SIZE_MAX
    ensures r < n || r == SIZE_MAX
    ensures r < n ==> pred(arr[r], needle)
    ensures r < n ==> forall i :: 0 <= i < r ==> !pred(arr[i], needle)
    ensures r == SIZE_MAX <==> forall i :: 0 <= i < n ==> !pred(arr[i], needle)
  {
    var p := 0;
    while p < n
      invariant 0 <= p <= n
      invariant forall i :: 0 <= i < p ==> !pred(arr[i], needle)
    {
      if pred(arr[p], needle) {
        return p;
      }
      p := p + 1;
    }
    return SIZE_MAX;
  }

  /** `xcp_str_arr_index_of`: the first of the `n` strings equal to `needle`. */
  method StrArrIndexOf(arr: array<string>, n: nat, needle: string) returns (r: nat)
    requires n <= arr.Length && n < SIZE_MAX
    requires IsCString(needle) && forall i :: 0 <= i < n ==> IsCString(arr[i])
    ensures r < n || r == SIZE_MAX
    ensures r < n ==> arr[r] == needle && needle !in arr[..r]
    ensures r == SIZE_MAX <==> needle !in arr[..n]
  {
    r := ArrIndexOf(arr, n, needle, PredStrEqual);
    if r < n {
      assert forall i :: 0 <= i < r ==> arr[..r][i] == arr[i];
    } else {
      assert forall i :: 0 <= i < n ==> arr[..n][i] == arr[i];
    }
  }
}
