/** Ragged batches: request `b` owns the flat rows `[starts[b], starts[b + 1])`. */
module Ragged {
  import opened Sums

  predicate ValidStarts(starts: seq<int>) {
    && |starts| > 0
    && starts[0] == 0
    && forall i, j :: 0 <= i <= j < |starts| ==> starts[i] <= starts[j]
  }

  function Total(starts: seq<int>): int
    requires |starts| > 0
  {
    starts[|starts| - 1]
  }

  /** Differences of consecutive starts: `torch.diff`. */
  function Diffs(starts: seq<int>): seq<int>
    requires |starts| > 0
  {
    seq(|starts| - 1, b requires 0 <= b < |starts| - 1 => starts[b + 1] - starts[b])
  }

  /** The request that owns flat row `p`. */
  function ReqOf(starts: seq<int>, p: int): (b: int)
    requires ValidStarts(starts) && 0 <= p < Total(starts)
    ensures 0 <= b < |starts| - 1 && starts[b] <= p < starts[b + 1]
  {
    var last := |starts| - 2;
    if starts[last] <= p then last else ReqOf(starts[..|starts| - 1], p)
  }

  lemma ReqOfUnique(starts: seq<int>, p: int, b: int)
    requires ValidStarts(starts) && 0 <= b < |starts| - 1 && starts[b] <= p < starts[b + 1]
    ensures 0 <= p < Total(starts) && ReqOf(starts, p) == b
  {
    var r := ReqOf(starts, p);
    assert starts[r] <= p < starts[r + 1];
  }

  lemma ReqOfWithin(starts: seq<int>, p: int, lo: int, hi: int)
    requires ValidStarts(starts) && 0 <= lo <= hi < |starts| && starts[lo] <= p < starts[hi]
    ensures 0 <= p < Total(starts) && lo <= ReqOf(starts, p) < hi
  {
  }

  /** Rows before the last request belong to the same request without it. */
  lemma ReqOfPrefix(starts: seq<int>, p: int)
    requires ValidStarts(starts) && 0 <= p < Total(starts)
    ensures var n := |starts| - 1;
            if p < starts[n - 1] then ReqOf(starts, p) == ReqOf(starts[..n], p) else ReqOf(starts, p) == n - 1
  {
  }

  function Repeat<T>(x: T, n: nat): seq<T> {
    seq(n, _ => x)
  }

  /** `torch.repeat_interleave`: element `b` of `xs`, `counts[b]` times over. */
  function RepeatInterleave<T>(xs: seq<T>, counts: seq<int>): seq<T>
    requires |xs| == |counts| && forall i :: 0 <= i < |counts| ==> 0 <= counts[i]
  {
    if xs == [] then []
    else
      var n := |xs| - 1;
      RepeatInterleave(xs[..n], counts[..n]) + Repeat(xs[n], counts[n])
  }

  lemma RepeatInterleaveLast<T>(xs: seq<T>, starts: seq<int>)
    requires ValidStarts(starts) && |xs| == |starts| - 1 > 0
    ensures var n := |xs|;
            RepeatInterleave(xs, Diffs(starts)) ==
            RepeatInterleave(xs[..n - 1], Diffs(starts[..n])) + Repeat(xs[n - 1], starts[n] - starts[n - 1])
  {
    var n, d := |xs|, Diffs(starts);
    DiffsPrefix(starts);
    assert RepeatInterleave(xs, d) == RepeatInterleave(xs[..n - 1], d[..n - 1]) + Repeat(xs[n - 1], d[n - 1]);
  }

  lemma DiffsPrefix(starts: seq<int>)
    requires |starts| >= 2
    ensures Diffs(starts[..|starts| - 1]) == Diffs(starts)[..|starts| - 2]
  {
  }

  /** Repeating by the row counts puts every request's value on exactly its own rows. */
  lemma {:induction false} RepeatInterleaveByRequest<T>(xs: seq<T>, starts: seq<int>)
    requires ValidStarts(starts) && |xs| == |starts| - 1
    ensures |RepeatInterleave(xs, Diffs(starts))| == Total(starts)
    ensures forall p :: 0 <= p < Total(starts) ==> RepeatInterleave(xs, Diffs(starts))[p] == xs[ReqOf(starts, p)]
  {
    var n := |xs|;
    if n > 0 {
      var init := starts[..n];
      RepeatInterleaveByRequest(xs[..n - 1], init);
      RepeatInterleaveLast(xs, starts);
      var r, last := RepeatInterleave(xs[..n - 1], Diffs(init)), Repeat(xs[n - 1], starts[n] - starts[n - 1]);
      forall p | 0 <= p < Total(starts)
        ensures (r + last)[p] == xs[ReqOf(starts, p)]
      {
        ReqOfPrefix(starts, p);
      }
    }
  }

  /** The position, in its own sequence, of the token in flat row `p`: the rows of a
      request are the last tokens of its sequence. */
  function Position(starts: seq<int>, seqLens: seq<int>, p: int): int
    requires ValidStarts(starts) && |seqLens| >= |starts| - 1 && 0 <= p < Total(starts)
  {
    var b := ReqOf(starts, p);
    seqLens[b] - (starts[b + 1] - starts[b]) + p - starts[b]
  }

  /** Token `j` of request `r` stands that far behind the tokens not run now. */
  lemma PositionInRequest(starts: seq<int>, seqLens: seq<int>, r: int, j: int)
    requires ValidStarts(starts) && |seqLens| >= |starts| - 1
    requires 0 <= r < |starts| - 1 && 0 <= j < starts[r + 1] - starts[r]
    ensures 0 <= starts[r] + j < Total(starts) && ReqOf(starts, starts[r] + j) == r
    ensures Position(starts, seqLens, starts[r] + j) == seqLens[r] - (starts[r + 1] - starts[r]) + j
  {
    ReqOfUnique(starts, starts[r] + j, r);
  }

  /** Cumulative sums with a leading zero: `torch.cumsum` into `[1:]`. */
  function CuSum(xs: seq<int>): (c: seq<int>)
    ensures |c| == |xs| + 1
  {
    seq(|xs| + 1, b requires 0 <= b <= |xs| => SumRange(xs, 0, b))
  }

  lemma CuSumIsValid(xs: seq<int>)
    requires NonNegative(xs)
    ensures ValidStarts(CuSum(xs))
  {
    forall i, j | 0 <= i <= j <= |xs|
      ensures CuSum(xs)[i] <= CuSum(xs)[j]
    {
      SumOfPart(xs, 0, 0, i, j);
    }
  }
}
