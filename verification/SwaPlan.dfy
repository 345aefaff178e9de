/** The sliding-window prefill chunk plan: requests are gathered into one workspace per
    chunk, whose area is the number of requests times the widest request. */
module SwaPlan {
  import opened Arith
  import opened GreedyPartition
  import opened PowersOfTwo

  function MaxRange(s: seq<int>, lo: int, hi: int): int
    requires 0 <= lo < hi <= |s|
    decreases hi - lo
  {
    if hi == lo + 1 then s[lo] else Max(MaxRange(s, lo, hi - 1), s[hi - 1])
  }

  lemma {:induction false} MaxRangeBounds(s: seq<int>, lo: int, hi: int)
    requires 0 <= lo < hi <= |s|
    ensures forall i :: lo <= i < hi ==> s[i] <= MaxRange(s, lo, hi)
    ensures exists i :: lo <= i < hi && s[i] == MaxRange(s, lo, hi)
    decreases hi - lo
  {
    if hi == lo + 1 {
      assert s[lo] == MaxRange(s, lo, hi);
    } else {
      MaxRangeBounds(s, lo, hi - 1);
      assert s[hi - 1] <= MaxRange(s, lo, hi);
      if MaxRange(s, lo, hi - 1) < s[hi - 1] {
        assert s[hi - 1] == MaxRange(s, lo, hi);
      }
    }
  }

  /** One chunk: requests `[start, end)`, the widest compressed prefix, and the width
      of a workspace row. */
  datatype PlanChunk = PlanChunk(start: int, end: int, maxCompressed: int, width: int)

  datatype SwaWork = SwaWork(seqLens: seq<int>, queryLens: seq<int>, window: int, maxModelLen: int,
                             maxBatched: int, ratio: int, chunkSize: int)
  {
    predicate Valid() {
      && |seqLens| == |queryLens| && window >= 1
      && forall i :: 0 <= i < |seqLens| ==> 0 <= seqLens[i] && 0 <= queryLens[i]
    }

    /** What the engine's configuration promises about every request. */
    predicate WithinLimits() {
      && Valid() && chunkSize >= 1 && 0 <= maxModelLen && 0 <= maxBatched
      && forall i :: 0 <= i < |seqLens| ==> seqLens[i] <= maxModelLen && queryLens[i] <= maxBatched
    }

    function MaxWidth(): int {
      (if ratio <= 1 then 0 else CeilDiv(maxModelLen, ratio)) + window + maxBatched
    }

    function MaxArea(): int { chunkSize * MaxWidth() }

    function Compressed(): (c: seq<int>)
      ensures |c| == |seqLens|
    {
      seq(|seqLens|, i requires 0 <= i < |seqLens| => if ratio <= 1 then 0 else seqLens[i] / ratio)
    }

    function Gather(): (g: seq<int>)
      requires |seqLens| == |queryLens|
      ensures |g| == |seqLens|
    {
      seq(|seqLens|, i requires 0 <= i < |seqLens| =>
        queryLens[i] + Clamp(seqLens[i] - queryLens[i], 0, window - 1))
    }

    function Width(s: int, e: int): int
      requires |seqLens| == |queryLens| && 0 <= s < e <= |seqLens|
    {
      MaxRange(Compressed(), s, e) + MaxRange(Gather(), s, e)
    }

    predicate Admissible(s: int, e: int)
      requires |seqLens| == |queryLens|
    {
      0 <= s < e <= |seqLens| && (e == s + 1 || (e - s) * Width(s, e) <= MaxArea())
    }

    function Test(): (int, int) -> bool
      requires |seqLens| == |queryLens|
    {
      (s, e) => Admissible(s, e)
    }

    function ChunkFor(s: int, e: int): PlanChunk
      requires |seqLens| == |queryLens| && 0 <= s < e <= |seqLens|
    {
      PlanChunk(s, e, MaxRange(Compressed(), s, e), Width(s, e))
    }
  }

  lemma WidthOfPart(w: SwaWork, s: int, s': int, e': int, e: int)
    requires w.Valid() && 0 <= s <= s' < e' <= e <= |w.seqLens|
    ensures 0 <= w.Width(s', e') <= w.Width(s, e)
  {
    MaxRangeBounds(w.Compressed(), s, e);
    MaxRangeBounds(w.Compressed(), s', e');
    MaxRangeBounds(w.Gather(), s, e);
    MaxRangeBounds(w.Gather(), s', e');
    assert forall i :: 0 <= i < |w.seqLens| ==> 0 <= w.Compressed()[i] && 0 <= w.Gather()[i];
  }

  lemma AdmissibleIsHereditary(w: SwaWork)
    requires w.Valid()
    ensures Hereditary(|w.seqLens|, w.Test())
  {
    forall s, e, s', e' | 0 <= s <= s' < e' <= e <= |w.seqLens| && w.Admissible(s, e)
      ensures w.Admissible(s', e')
    {
      if e' != s' + 1 {
        WidthOfPart(w, s, s', e', e);
        ProductMonotone(e - s, w.Width(s, e), e' - s', w.Width(s', e'));
      }
    }
  }

  /** The inner loop: grows a chunk from `start` while its area fits. */
  method GrowChunk(w: SwaWork, start: int) returns (c: PlanChunk)
    requires w.Valid() && 0 <= start < |w.seqLens|
    ensures c.start == start && w.Admissible(start, c.end) && c == w.ChunkFor(start, c.end)
    ensures c.end == |w.seqLens| || !w.Admissible(start, c.end + 1)
  {
    var compressed, gather := w.Compressed(), w.Gather();
    var maxCompressed, maxGather := compressed[start], gather[start];
    var end := start + 1;
    while end < |w.seqLens|
      invariant start < end <= |w.seqLens| && w.Admissible(start, end)
      invariant maxCompressed == MaxRange(compressed, start, end)
      invariant maxGather == MaxRange(gather, start, end)
    {
      var newCompressed := Max(maxCompressed, compressed[end]);
      var newGather := Max(maxGather, gather[end]);
      var width := newCompressed + newGather;
      assert width == w.Width(start, end + 1);
      if (end - start + 1) * width > w.MaxArea() {
        break;
      }
      maxCompressed, maxGather := newCompressed, newGather;
      end := end + 1;
    }
    c := PlanChunk(start, end, maxCompressed, maxCompressed + maxGather);
  }

  /** The plan lists the groups of `cuts`, with their exact widths. */
  ghost predicate PlannedTo(w: SwaWork, cuts: seq<int>, end: int, plan: seq<PlanChunk>) {
    && w.Valid() && 0 <= end <= |w.seqLens|
    && Partition(cuts, end, w.Test()) && Greedy(cuts, |w.seqLens|, w.Test())
    && |plan| == |cuts| - 1
    && forall k {:trigger plan[k]} :: 0 <= k < |plan| ==>
         && 0 <= cuts[k] < cuts[k + 1] <= |w.seqLens|
         && plan[k] == w.ChunkFor(cuts[k], cuts[k + 1])
  }

  lemma PlanGrows(w: SwaWork, cuts: seq<int>, plan: seq<PlanChunk>, start: int, end: int)
    requires PlannedTo(w, cuts, start, plan)
    requires w.Admissible(start, end) && (end == |w.seqLens| || !w.Admissible(start, end + 1))
    ensures PlannedTo(w, cuts + [end], end, plan + [w.ChunkFor(start, end)])
  {
    Extend(cuts, start, end, |w.seqLens|, w.Test());
  }

  /** The plan of a greedy partition of all prefills. */
  ghost predicate IsPlan(w: SwaWork, plan: seq<PlanChunk>) {
    exists cuts :: PlannedTo(w, cuts, |w.seqLens|, plan)
  }

  method GetPrefillChunkPlan(w: SwaWork) returns (plan: seq<PlanChunk>)
    requires w.Valid()
    ensures IsPlan(w, plan)
  {
    plan := [];
    ghost var cuts := [0];
    var start := 0;
    while start < |w.seqLens|
      invariant PlannedTo(w, cuts, start, plan)
    {
      var c := GrowChunk(w, start);
      PlanGrows(w, cuts, plan, start, c.end);
      plan, cuts := plan + [c], cuts + [c.end];
      start := c.end;
    }
  }

  /** The plan is a shortest one. */
  lemma PlanUsesFewestChunks(w: SwaWork, plan: seq<PlanChunk>, other: seq<int>)
    requires IsPlan(w, plan) && Partition(other, |w.seqLens|, w.Test())
    ensures |plan| <= |other| - 1
  {
    var cuts :| PlannedTo(w, cuts, |w.seqLens|, plan);
    AdmissibleIsHereditary(w);
    GreedyIsOptimal(cuts, other, |w.seqLens|, w.Test());
  }

  lemma WidthWithinLimit(w: SwaWork, s: int, e: int)
    requires w.WithinLimits() && 0 <= s < e <= |w.seqLens|
    ensures 0 <= w.Width(s, e) <= w.MaxWidth()
  {
    WidthOfPart(w, s, s, e, e);
    MaxRangeBounds(w.Compressed(), s, e);
    MaxRangeBounds(w.Gather(), s, e);
    var i :| s <= i < e && w.Compressed()[i] == MaxRange(w.Compressed(), s, e);
    var j :| s <= j < e && w.Gather()[j] == MaxRange(w.Gather(), s, e);
    if w.ratio > 1 {
      DivMonotone(w.seqLens[i], w.maxModelLen + w.ratio - 1, w.ratio);
    }
  }

  lemma ChunkArea(w: SwaWork, s: int, e: int)
    requires w.WithinLimits() && w.Admissible(s, e)
    ensures (e - s) * w.Width(s, e) <= w.MaxArea()
  {
    WidthWithinLimit(w, s, e);
    if e == s + 1 {
      ProductMonotone(w.chunkSize, w.MaxWidth(), 1, w.Width(s, e));
    }
  }

  lemma FewRequestsFit(w: SwaWork, s: int, e: int)
    requires w.WithinLimits() && 0 <= s < e <= |w.seqLens| && e - s <= w.chunkSize
    ensures w.Admissible(s, e)
  {
    WidthWithinLimit(w, s, e);
    ProductMonotone(w.chunkSize, w.MaxWidth(), e - s, w.Width(s, e));
  }

  /** What chunk `k` of a plan is: an admissible group that could not have been longer. */
  lemma ChunkOfPlan(w: SwaWork, plan: seq<PlanChunk>, k: int) returns (s: int, e: int)
    requires IsPlan(w, plan) && 0 <= k < |plan|
    ensures w.Admissible(s, e) && plan[k] == w.ChunkFor(s, e)
    ensures k < |plan| - 1 ==> e < |w.seqLens| && !w.Admissible(s, e + 1)
  {
    var cuts :| PlannedTo(w, cuts, |w.seqLens|, plan);
    s, e := cuts[k], cuts[k + 1];
    GreedyGroup(cuts, |w.seqLens|, w.Test(), k);
    TestIsAdmissible(w, s, e);
    TestIsAdmissible(w, s, e + 1);
    assert plan[k] == w.ChunkFor(s, e);
  }

  lemma TestIsAdmissible(w: SwaWork, s: int, e: int)
    requires |w.seqLens| == |w.queryLens|
    ensures w.Test()(s, e) == w.Admissible(s, e)
  {
  }

  /** Under the engine's limits every chunk, single requests included, stays within the
      workspace area, and every chunk but the last holds at least `chunkSize` requests. */
  lemma PlanStaysInWorkspace(w: SwaWork, plan: seq<PlanChunk>, k: int)
    requires w.WithinLimits() && IsPlan(w, plan) && 0 <= k < |plan|
    ensures (plan[k].end - plan[k].start) * plan[k].width <= w.chunkSize *
              ((if w.ratio <= 1 then 0 else CeilDiv(w.maxModelLen, w.ratio)) + w.window + w.maxBatched)
    ensures k < |plan| - 1 ==> plan[k].end - plan[k].start >= w.chunkSize
  {
    var s, e := ChunkOfPlan(w, plan, k);
    ChunkArea(w, s, e);
    if k < |plan| - 1 && e + 1 - s <= w.chunkSize {
      FewRequestsFit(w, s, e + 1);
    }
  }

  /** `m` is the largest compressed length of the requests `[s, e)`. */
  ghost predicate LargestCompressed(w: SwaWork, s: int, e: int, m: int)
    requires 0 <= s <= e <= |w.seqLens|
  {
    && (forall i :: s <= i < e ==> (if w.ratio <= 1 then 0 else w.seqLens[i] / w.ratio) <= m)
    && exists i :: s <= i < e && (if w.ratio <= 1 then 0 else w.seqLens[i] / w.ratio) == m
  }

  /** `m` is the largest number of gathered keys: the queries and the window in front. */
  ghost predicate LargestGather(w: SwaWork, s: int, e: int, m: int)
    requires |w.seqLens| == |w.queryLens| && 0 <= s <= e <= |w.seqLens|
  {
    && (forall i :: s <= i < e ==> w.queryLens[i] + Clamp(w.seqLens[i] - w.queryLens[i], 0, w.window - 1) <= m)
    && exists i :: s <= i < e && w.queryLens[i] + Clamp(w.seqLens[i] - w.queryLens[i], 0, w.window - 1) == m
  }

  lemma RangeIsLargest(w: SwaWork, s: int, e: int)
    requires w.Valid() && 0 <= s < e <= |w.seqLens|
    ensures LargestCompressed(w, s, e, MaxRange(w.Compressed(), s, e))
    ensures LargestGather(w, s, e, MaxRange(w.Gather(), s, e))
  {
    var c, g := w.Compressed(), w.Gather();
    MaxRangeBounds(c, s, e);
    MaxRangeBounds(g, s, e);
    assert forall i :: s <= i < e ==> c[i] == if w.ratio <= 1 then 0 else w.seqLens[i] / w.ratio;
    assert forall i :: s <= i < e ==>
        g[i] == w.queryLens[i] + Clamp(w.seqLens[i] - w.queryLens[i], 0, w.window - 1);
  }

  /** The widths of chunk `k` are the exact maxima over its requests. */
  lemma PlanWidthsAreMaxima(w: SwaWork, plan: seq<PlanChunk>, k: int)
    requires w.Valid() && IsPlan(w, plan) && 0 <= k < |plan|
    ensures 0 <= plan[k].start < plan[k].end <= |w.seqLens|
    ensures LargestCompressed(w, plan[k].start, plan[k].end, plan[k].maxCompressed)
    ensures LargestGather(w, plan[k].start, plan[k].end, plan[k].width - plan[k].maxCompressed)
  {
    var s, e := ChunkOfPlan(w, plan, k);
    RangeIsLargest(w, s, e);
  }

  /** With the next request a chunk would exceed the workspace area. */
  lemma PlanChunkIsFull(w: SwaWork, plan: seq<PlanChunk>, k: int, compressed: int, gather: int)
    requires w.Valid() && IsPlan(w, plan) && 0 <= k < |plan| - 1
    requires 0 <= plan[k].start <= plan[k].end < |w.seqLens|
    requires LargestCompressed(w, plan[k].start, plan[k].end + 1, compressed)
    requires LargestGather(w, plan[k].start, plan[k].end + 1, gather)
    ensures (plan[k].end + 1 - plan[k].start) * (compressed + gather) > w.chunkSize *
              ((if w.ratio <= 1 then 0 else CeilDiv(w.maxModelLen, w.ratio)) + w.window + w.maxBatched)
  {
    var s, e := ChunkOfPlan(w, plan, k);
    GroupIsFull(w, s, e + 1, compressed, gather);
  }

  lemma GroupIsFull(w: SwaWork, s: int, e: int, compressed: int, gather: int)
    requires w.Valid() && 0 <= s < e - 1 && e <= |w.seqLens| && !w.Admissible(s, e)
    requires LargestCompressed(w, s, e, compressed) && LargestGather(w, s, e, gather)
    ensures (e - s) * (compressed + gather) > w.chunkSize *
              ((if w.ratio <= 1 then 0 else CeilDiv(w.maxModelLen, w.ratio)) + w.window + w.maxBatched)
  {
    WidthIsLargest(w, s, e, compressed, gather);
    Overfull(w, s, e, compressed + gather);
  }

  lemma Overfull(w: SwaWork, s: int, e: int, width: int)
    requires |w.seqLens| == |w.queryLens| && 0 <= s < e - 1 && e <= |w.seqLens|
    requires !w.Admissible(s, e) && width == w.Width(s, e)
    ensures (e - s) * width > w.chunkSize *
              ((if w.ratio <= 1 then 0 else CeilDiv(w.maxModelLen, w.ratio)) + w.window + w.maxBatched)
  {
    assert w.MaxArea() == w.chunkSize * w.MaxWidth();
  }

  lemma WidthIsLargest(w: SwaWork, s: int, e: int, compressed: int, gather: int)
    requires w.Valid() && 0 <= s < e <= |w.seqLens|
    requires LargestCompressed(w, s, e, compressed) && LargestGather(w, s, e, gather)
    ensures w.Width(s, e) == compressed + gather
  {
    RangeIsLargest(w, s, e);
  }

  /** The gather length the device kernel computes from its exact sequence length. */
  function DeviceGather(seqLen: int, queryLen: int, window: int): int {
    queryLen + Min(seqLen - queryLen, window - 1)
  }

  /** It reaches from the end of the sequence back to the first key the first query's window
      holds. */
  lemma GatherHoldsWindows(seqLen: int, queryLen: int, window: int)
    requires 0 <= queryLen <= seqLen && window >= 1
    ensures DeviceGather(seqLen, queryLen, window) == seqLen - Max(seqLen - queryLen + 1 - window, 0)
  {
  }

  /** The gather-length kernel: a single program of `next_power_of_2` lanes.  Lanes past
      the last request store nothing, and thanks to the clamp they do not even form an
      address outside the inputs. */
  method ComputeGatherLens(seqLens: seq<int>, starts: seq<int>, numDecodes: nat, window: int, out: array<int>)
    requires |starts| == |seqLens| + 1 && numDecodes < |seqLens| && out.Length == |seqLens| - numDecodes
    modifies out
    ensures forall i :: 0 <= i < out.Length ==>
              var r := numDecodes + i; out[i] == DeviceGather(seqLens[r], starts[r + 1] - starts[r], window)
  {
    var n := |seqLens| - numDecodes;
    NextPow2IsLeast(n, 0);
    for offset := 0 to NextPow2(n)
      invariant forall i :: 0 <= i < n && i < offset ==>
                  var r := numDecodes + i; out[i] == DeviceGather(seqLens[r], starts[r + 1] - starts[r], window)
    {
      var safeOffset := Min(offset, n - 1);
      var seqLen := seqLens[numDecodes + safeOffset];
      var queryLen := starts[numDecodes + safeOffset + 1] - starts[numDecodes + safeOffset];
      if offset < n {
        out[offset] := queryLen + Min(seqLen - queryLen, window - 1);
      }
    }
  }

  /** Planned from the host's upper bounds, a row still holds what the device gathers. */
  lemma PlanCoversDeviceLengths(w: SwaWork, plan: seq<PlanChunk>, k: int, i: int, seqLen: int, queryLen: int)
    requires IsPlan(w, plan) && 0 <= k < |plan| && 0 <= plan[k].start <= i < plan[k].end <= |w.seqLens|
    requires seqLen <= w.seqLens[i] && queryLen <= w.queryLens[i]
    ensures w.ratio > 1 ==> seqLen / w.ratio <= plan[k].maxCompressed
    ensures DeviceGather(seqLen, queryLen, w.window) <= plan[k].width - plan[k].maxCompressed
  {
    var s, e := ChunkOfPlan(w, plan, k);
    MaxRangeBounds(w.Compressed(), s, e);
    MaxRangeBounds(w.Gather(), s, e);
    assert w.Compressed()[i] <= plan[k].maxCompressed;
    assert w.Gather()[i] <= plan[k].width - plan[k].maxCompressed;
    if w.ratio > 1 {
      DivMonotone(seqLen, w.seqLens[i], w.ratio);
    }
  }
}
