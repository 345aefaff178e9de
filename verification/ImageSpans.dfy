/** In-image visibility: image spans per request, uploaded in CSR form, and per prefill
    token the number of extra tokens it sees to its left and right. */
module ImageSpans {
  import opened Arith
  import opened Ragged
  import opened Launch

  /** Both ends are part of the span. */
  datatype Span = Span(first: int, last: int)

  predicate Inside(s: Span, pos: int) { s.first <= pos <= s.last }

  function SpansOf(ranges: map<int, seq<Span>>, r: int): seq<Span> {
    if r in ranges then ranges[r] else []
  }

  /** The spans of the first `n` requests, in request order. */
  function AllSpans(ranges: map<int, seq<Span>>, n: nat): seq<Span> {
    if n == 0 then [] else AllSpans(ranges, n - 1) + SpansOf(ranges, n - 1)
  }

  lemma {:induction false} AllSpansPrefix(ranges: map<int, seq<Span>>, r: nat, n: nat)
    requires r < n
    ensures |AllSpans(ranges, r)| + |SpansOf(ranges, r)| <= |AllSpans(ranges, n)|
    ensures AllSpans(ranges, n)[|AllSpans(ranges, r)|..|AllSpans(ranges, r)| + |SpansOf(ranges, r)|] ==
            SpansOf(ranges, r)
  {
    if r < n - 1 {
      AllSpansPrefix(ranges, r, n - 1);
      var a, lo := AllSpans(ranges, n - 1), |AllSpans(ranges, r)|;
      assert AllSpans(ranges, n)[lo..lo + |SpansOf(ranges, r)|] == a[lo..lo + |SpansOf(ranges, r)|];
    }
  }

  /** Extra visible tokens left and right of `pos`; if spans overlapped, the last match
      would count. */
  function Visible(spans: seq<Span>, pos: int, maxTokens: int): (int, int) {
    if spans == [] then (0, 0)
    else
      var s := spans[|spans| - 1];
      if Inside(s, pos) then (Min(pos - s.first, maxTokens - 1), Min(s.last - pos, maxTokens))
      else Visible(spans[..|spans| - 1], pos, maxTokens)
  }

  ghost predicate Disjoint(spans: seq<Span>) {
    forall i, j, p :: 0 <= i < j < |spans| && Inside(spans[i], p) ==> !Inside(spans[j], p)
  }

  /** For disjoint spans within the token limit the counts reach exactly to the ends of
      the token's own span, wherever it stands in the list. */
  lemma {:induction false} VisibleReachesSpanEnds(spans: seq<Span>, pos: int, maxTokens: int, k: int)
    requires Disjoint(spans) && 0 <= k < |spans| && Inside(spans[k], pos)
    requires spans[k].last - spans[k].first + 1 <= maxTokens
    ensures Visible(spans, pos, maxTokens) == (pos - spans[k].first, spans[k].last - pos)
  {
    var n := |spans| - 1;
    if k < n {
      assert !Inside(spans[n], pos);
      VisibleReachesSpanEnds(spans[..n], pos, maxTokens, k);
    }
  }

  lemma {:induction false} NothingVisibleOutside(spans: seq<Span>, pos: int, maxTokens: int)
    requires forall k :: 0 <= k < |spans| ==> !Inside(spans[k], pos)
    ensures Visible(spans, pos, maxTokens) == (0, 0)
  {
    if spans != [] {
      NothingVisibleOutside(spans[..|spans| - 1], pos, maxTokens);
    }
  }

  /** With any spans, overlapping or long: the last span of the token decides, and the counts
      stop at the limit. */
  lemma {:induction false} VisibleIsLastSpan(spans: seq<Span>, pos: int, maxTokens: int, k: int)
    requires 0 <= k < |spans| && Inside(spans[k], pos)
    requires forall i :: k < i < |spans| ==> !Inside(spans[i], pos)
    ensures Visible(spans, pos, maxTokens) ==
            (Min(pos - spans[k].first, maxTokens - 1), Min(spans[k].last - pos, maxTokens))
  {
    if k < |spans| - 1 {
      VisibleIsLastSpan(spans[..|spans| - 1], pos, maxTokens, k);
    }
  }

  /** The counts by the request's own entry: a request without one has no images. */
  lemma VisibleOfRequest(ranges: map<int, seq<Span>>, r: int, pos: int, maxTokens: int, k: int)
    ensures r !in ranges ==> Visible(SpansOf(ranges, r), pos, maxTokens) == (0, 0)
    ensures r in ranges && 0 <= k < |ranges[r]| && Inside(ranges[r][k], pos) && Disjoint(ranges[r]) &&
            ranges[r][k].last - ranges[r][k].first + 1 <= maxTokens ==>
              Visible(SpansOf(ranges, r), pos, maxTokens) == (pos - ranges[r][k].first, ranges[r][k].last - pos)
    ensures r in ranges && (forall i :: 0 <= i < |ranges[r]| ==> !Inside(ranges[r][i], pos)) ==>
              Visible(SpansOf(ranges, r), pos, maxTokens) == (0, 0)
  {
    if r in ranges {
      if 0 <= k < |ranges[r]| && Inside(ranges[r][k], pos) && Disjoint(ranges[r]) &&
         ranges[r][k].last - ranges[r][k].first + 1 <= maxTokens {
        VisibleReachesSpanEnds(ranges[r], pos, maxTokens, k);
      }
      if forall i :: 0 <= i < |ranges[r]| ==> !Inside(ranges[r][i], pos) {
        NothingVisibleOutside(ranges[r], pos, maxTokens);
      }
    }
  }

  /** The builder's span and visibility buffers; what they held before does not matter. */
  class SpanBuffers {
    const indptr: array<int>
    const firsts: array<int>
    const lasts: array<int>
    const left: array<int>
    const right: array<int>

    ghost predicate Valid() {
      && firsts.Length == lasts.Length && left.Length == right.Length
      && indptr != firsts && indptr != lasts && indptr != left && indptr != right && firsts != lasts
      && firsts != left && firsts != right && lasts != left && lasts != right && left != right
    }

    constructor (maxSeqs: nat, maxTokens: nat)
      ensures Valid() && fresh(indptr) && fresh(firsts) && fresh(lasts) && fresh(left) && fresh(right)
      ensures indptr.Length == maxSeqs + 1 && firsts.Length == left.Length == maxTokens
    {
      indptr := new int[maxSeqs + 1](_ => 0);
      firsts := new int[maxTokens](_ => 0);
      lasts := new int[maxTokens](_ => 0);
      left := new int[maxTokens](_ => 0);
      right := new int[maxTokens](_ => 0);
    }

    /** The CSR arrays hold the spans of the first `n` requests. */
    ghost predicate Uploaded(ranges: map<int, seq<Span>>, n: nat)
      reads indptr, firsts, lasts
    {
      && n < indptr.Length && |AllSpans(ranges, n)| <= firsts.Length == lasts.Length
      && (forall r {:trigger indptr[r]} :: 0 <= r <= n ==> indptr[r] == |AllSpans(ranges, r)|)
      && forall k {:trigger firsts[k]} {:trigger lasts[k]} :: 0 <= k < |AllSpans(ranges, n)| ==>
           firsts[k] == AllSpans(ranges, n)[k].first && lasts[k] == AllSpans(ranges, n)[k].last
    }

    method Upload(ranges: map<int, seq<Span>>, numReqs: nat)
      requires Valid() && numReqs < indptr.Length && |AllSpans(ranges, numReqs)| <= firsts.Length
      modifies indptr, firsts, lasts
      ensures Uploaded(ranges, numReqs)
    {
      var ptr, spans := CollectSpans(ranges, numReqs);
      forall r | 0 <= r <= numReqs { indptr[r] := ptr[r]; }
      forall k | 0 <= k < |spans| { firsts[k] := spans[k].first; }
      forall k | 0 <= k < |spans| { lasts[k] := spans[k].last; }
    }

    static method CollectSpans(ranges: map<int, seq<Span>>, numReqs: nat) returns (ptr: seq<int>, spans: seq<Span>)
      ensures |ptr| == numReqs + 1 && spans == AllSpans(ranges, numReqs)
      ensures forall r {:trigger ptr[r]} :: 0 <= r <= numReqs ==> ptr[r] == |AllSpans(ranges, r)|
    {
      ptr, spans := [0], [];
      for r := 0 to numReqs
        invariant |ptr| == r + 1 && spans == AllSpans(ranges, r)
        invariant forall q {:trigger ptr[q]} :: 0 <= q <= r ==> ptr[q] == |AllSpans(ranges, q)|
      {
        var mine := SpansOf(ranges, r);
        for k := 0 to |mine|
          invariant spans == AllSpans(ranges, r) + mine[..k]
        {
          spans := spans + [mine[k]];
        }
        assert mine[..|mine|] == mine;
        ptr := ptr + [|spans|];
      }
    }

    /** One program of the visibility kernel: scans its request's spans. */
    method VisibilityProgram(ranges: map<int, seq<Span>>, numReqs: nat, starts: seq<int>, seqLens: seq<int>,
                             maxImageTokens: int, token: int)
      requires Valid() && Uploaded(ranges, numReqs)
      requires ValidStarts(starts) && |starts| == numReqs + 1 && |seqLens| >= numReqs
      requires 0 <= token < Total(starts) && token < left.Length
      modifies left, right
      ensures (left[token], right[token]) ==
              Visible(SpansOf(ranges, ReqOf(starts, token)), Position(starts, seqLens, token), maxImageTokens)
      ensures forall t :: 0 <= t < left.Length && t != token ==> left[t] == old(left[t]) && right[t] == old(right[t])
    {
      var r := ReqOf(starts, token);
      var pos := seqLens[r] - (starts[r + 1] - starts[r]) + token - starts[r];
      ghost var spans := SpansOf(ranges, r);
      AllSpansPrefix(ranges, r, numReqs);
      var lo, hi := indptr[r], indptr[r + 1];
      var l, rt := ScanSpans(ranges, numReqs, r, lo, hi, pos, maxImageTokens);
      left[token], right[token] := l, rt;
    }

    method ScanSpans(ghost ranges: map<int, seq<Span>>, ghost n: nat, ghost r: nat, lo: int, hi: int,
                     pos: int, maxImageTokens: int)
      returns (l: int, rt: int)
      requires Uploaded(ranges, n) && r < n
      requires lo == |AllSpans(ranges, r)| && hi == lo + |SpansOf(ranges, r)|
      ensures (l, rt) == Visible(SpansOf(ranges, r), pos, maxImageTokens)
    {
      ghost var spans := SpansOf(ranges, r);
      AllSpansPrefix(ranges, r, n);
      l, rt := 0, 0;
      for i := lo to hi
        invariant (l, rt) == Visible(spans[..i - lo], pos, maxImageTokens)
      {
        assert AllSpans(ranges, n)[lo..hi][i - lo] == spans[i - lo];
        assert spans[..i - lo + 1][..i - lo] == spans[..i - lo];
        if firsts[i] <= pos <= lasts[i] {
          l := Min(pos - firsts[i], maxImageTokens - 1);
          rt := Min(lasts[i] - pos, maxImageTokens);
        }
      }
      assert spans[..hi - lo] == spans;
    }

    /** The whole step: upload, then one program per prefill token in any order. */
    method BuildVisibility(ranges: map<int, seq<Span>>, numReqs: nat, starts: seq<int>, seqLens: seq<int>,
                           maxImageTokens: int, tokenOffset: nat, numTokens: nat, order: seq<int>)
      requires Valid() && numReqs < indptr.Length && |AllSpans(ranges, numReqs)| <= firsts.Length
      requires ValidStarts(starts) && |starts| == numReqs + 1 && |seqLens| >= numReqs
      requires tokenOffset + numTokens <= Total(starts) <= left.Length && IsOrder(order, numTokens)
      modifies indptr, firsts, lasts, left, right
      ensures forall t :: tokenOffset <= t < tokenOffset + numTokens ==>
                (left[t], right[t]) ==
                Visible(SpansOf(ranges, ReqOf(starts, t)), Position(starts, seqLens, t), maxImageTokens)
    {
      Upload(ranges, numReqs);
      for k := 0 to |order|
        invariant Uploaded(ranges, numReqs)
        invariant forall t :: tokenOffset <= t < tokenOffset + numTokens && Runs(order[..k], t - tokenOffset) ==>
                    (left[t], right[t]) ==
                    Visible(SpansOf(ranges, ReqOf(starts, t)), Position(starts, seqLens, t), maxImageTokens)
      {
        VisibilityProgram(ranges, numReqs, starts, seqLens, maxImageTokens, order[k] + tokenOffset);
        RunsOneMore(order, k);
      }
      assert order[..|order|] == order;
    }
  }
}
