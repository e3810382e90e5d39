/** Python's indexing of a length-`n` axis by a possibly negative index. */
module PyIndex {
  import opened Wrappers

  /** `a[i]`: negative indices count from the end; out of range is an IndexError (None). */
  function Index(i: int, n: nat): (r: Option<nat>)
    ensures r.Some? <==> -(n as int) <= i < n
    ensures r.Some? ==> r.value < n && (r.value == i || r.value == i + n)
  {
    if 0 <= i < n then Some(i) else if -(n as int) <= i < 0 then Some(i + n) else None
  }

  /**
   * A slice bound `a[i:]` resolved against a length-`n` axis: a negative
   * bound counts from the end and stops at 0, a bound past the end is `n`.
   */
  function Bound(i: int, n: nat): (r: nat)
    ensures r <= n
    ensures 0 <= i <= n ==> r == i
    ensures i < 0 ==> r == (if i + n < 0 then 0 else i + n)
    ensures i > n ==> r == n
  {
    if i < 0 then (if i + n < 0 then 0 else i + n) else if i > n then n else i
  }

  /** The physical positions `[lo, hi)` that the slice `a[i:j]` selects. */
  function SliceRange(i: int, j: int, n: nat): (r: (nat, nat))
    ensures r.0 <= r.1 <= n
    ensures 0 <= i <= j <= n ==> r == (i, j)
  {
    var lo, hi := Bound(i, n), Bound(j, n);
    if lo <= hi then (lo, hi) else (lo, lo)
  }
}
