/** Sums over index ranges. */
module Sums {

  function SumRange(s: seq<int>, lo: int, hi: int): int
    requires 0 <= lo <= hi <= |s|
    decreases hi - lo
  {
    if lo == hi then 0 else SumRange(s, lo, hi - 1) + s[hi - 1]
  }

  ghost predicate NonNegative(s: seq<int>) {
    forall i :: 0 <= i < |s| ==> 0 <= s[i]
  }

  lemma {:induction false} SumSplit(s: seq<int>, lo: int, mid: int, hi: int)
    requires 0 <= lo <= mid <= hi <= |s|
    ensures SumRange(s, lo, hi) == SumRange(s, lo, mid) + SumRange(s, mid, hi)
    decreases hi - mid
  {
    if mid < hi {
      SumSplit(s, lo, mid, hi - 1);
    }
  }

  lemma {:induction false} SumNonNegative(s: seq<int>, lo: int, hi: int)
    requires 0 <= lo <= hi <= |s| && NonNegative(s)
    ensures 0 <= SumRange(s, lo, hi)
    decreases hi - lo
  {
    if lo < hi {
      SumNonNegative(s, lo, hi - 1);
    }
  }

  /** A part of a range of non-negative numbers sums to no more than the whole. */
  lemma SumOfPart(s: seq<int>, lo: int, lo': int, hi': int, hi: int)
    requires 0 <= lo <= lo' <= hi' <= hi <= |s| && NonNegative(s)
    ensures 0 <= SumRange(s, lo', hi') <= SumRange(s, lo, hi)
  {
    SumSplit(s, lo, lo', hi);
    SumSplit(s, lo', hi', hi);
    SumNonNegative(s, lo, lo');
    SumNonNegative(s, lo', hi');
    SumNonNegative(s, hi', hi);
  }

  lemma {:induction false} SumPointwise(s: seq<int>, t: seq<int>, lo: int, hi: int)
    requires 0 <= lo <= hi <= |s| && |s| == |t|
    requires forall i :: lo <= i < hi ==> s[i] <= t[i]
    ensures SumRange(s, lo, hi) <= SumRange(t, lo, hi)
    decreases hi - lo
  {
    if lo < hi {
      SumPointwise(s, t, lo, hi - 1);
    }
  }
}
