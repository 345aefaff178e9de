/** What the indexer's prefill plan guarantees: fewest groups, every prefill token in
    exactly one chunk, bounded logits, and every chunk that skips the KV gather placed
    behind the chunk that did it. */
module PrefillPlan {
  import opened Arith
  import opened Sums
  import opened Ragged
  import opened GreedyPartition
  import opened PrefillSplit

  /** No in-order grouping into budget-respecting or single-request groups is shorter. */
  lemma SplitUsesFewestGroups(w: Work, cuts: seq<int>, chunks: seq<Chunk>, other: seq<int>)
    requires PlannedTo(w, cuts, |w.keys|, chunks)
    requires Partition(other, |w.keys|, w.Test())
    ensures |cuts| <= |other|
  {
    AdmissibleIsHereditary(w);
    GreedyIsOptimal(cuts, other, |w.keys|, w.Test());
  }

  /** Every group is as long as the budgets allow: with the next request it would exceed the
      workspace or the logits. */
  lemma SplitGroupsAreFull(w: Work, cuts: seq<int>, chunks: seq<Chunk>, i: int)
    requires PlannedTo(w, cuts, |w.keys|, chunks) && 0 <= i < |cuts| - 2
    ensures 0 <= cuts[i] < cuts[i + 1] < |w.keys|
    ensures var m, n := SumRange(w.queries, cuts[i], cuts[i + 1] + 1), SumRange(w.keys, cuts[i], cuts[i + 1] + 1);
            n > w.workspace || m * n > w.logits
  {
    GreedyGroup(cuts, |w.keys|, w.Test(), i);
    assert cuts[i + 1] < cuts[|cuts| - 1];
    assert !w.Test()(cuts[i], cuts[i + 1] + 1);
  }

  /** What holds of a chunk on its own. */
  predicate ChunkOk(w: Work, c: Chunk) {
    && w.InRange(c)
    && 0 <= c.qStart < c.qStop <= w.Queries(c)
    // logits rows times keys stay within the budget, one row alone excepted
    && (c.qStop - c.qStart) * w.Keys(c) <= Max(w.logits, w.Keys(c))
    // only a single request is ever cut along the query dimension
    && (c.reqStop - c.reqStart > 1 ==> c.qStart == 0 && c.qStop == w.Queries(c) && w.Keys(c) <= w.workspace)
    // a group without compressed keys is one whole chunk
    && (w.Keys(c) == 0 ==> c.qStart == 0 && c.qStop == w.Queries(c))
  }

  /** How far a group is cut: not at all if it is within both budgets, and otherwise into
      slices as long as the logits budget allows, the last one excepted. */
  predicate SliceOk(w: Work, c: Chunk)
    requires w.InRange(c)
  {
    && (w.Keys(c) <= w.workspace && w.Queries(c) * w.Keys(c) <= w.logits ==> c.qStart == 0 && c.qStop == w.Queries(c))
    && (c.qStop < w.Queries(c) ==> w.Keys(c) > 0 && c.qStop - c.qStart == Max(1, w.logits / w.Keys(c)))
  }

  predicate AllIn(w: Work, cs: seq<Chunk>) {
    forall i {:trigger cs[i]} :: 0 <= i < |cs| ==> w.InRange(cs[i])
  }

  predicate AllOk(w: Work, cs: seq<Chunk>)
    ensures AllOk(w, cs) ==> AllIn(w, cs)
  {
    forall i {:trigger cs[i]} :: 0 <= i < |cs| ==> ChunkOk(w, cs[i])
  }

  /** The chunks' token ranges follow one another from `lo` to `hi` without gap or overlap. */
  ghost predicate Tiles(w: Work, cs: seq<Chunk>, lo: int, hi: int)
    requires AllIn(w, cs)
  {
    if cs == [] then lo == hi
    else
      && w.TokenStart(cs[0]) == lo
      && w.TokenStop(cs[|cs| - 1]) == hi
      && forall i :: 0 < i < |cs| ==> w.TokenStop(cs[i - 1]) == w.TokenStart(cs[i])
  }

  predicate Continues(a: Chunk, b: Chunk) {
    a.reqStart == b.reqStart && a.reqStop == b.reqStop && a.qStop == b.qStart
  }

  /** A chunk that starts past query 0 directly continues the chunk before it. */
  predicate Linked(cs: seq<Chunk>) {
    forall i :: 0 <= i < |cs| && cs[i].qStart > 0 ==> i > 0 && Continues(cs[i - 1], cs[i])
  }

  ghost predicate SliceRun(cs: seq<Chunk>, reqStart: int, reqStop: int, m: int, maxQ: int, q: int) {
    && (cs == [] <==> q >= m)
    && (cs != [] ==> cs[0].qStart == q && cs[|cs| - 1].qStop == m)
    && forall i :: 0 <= i < |cs| ==>
         && cs[i].reqStart == reqStart && cs[i].reqStop == reqStop
         && q <= cs[i].qStart < cs[i].qStop <= m && cs[i].qStop - cs[i].qStart <= maxQ
         && (i > 0 ==> cs[i - 1].qStop == cs[i].qStart)
         && (cs[i].qStop < m ==> cs[i].qStop - cs[i].qStart == maxQ)
  }

  lemma {:induction false} SlicesRun(reqStart: int, reqStop: int, m: int, maxQ: int, q: int)
    requires maxQ >= 1
    ensures SliceRun(Slices(reqStart, reqStop, m, maxQ, q), reqStart, reqStop, m, maxQ, q)
    decreases m - q
  {
    if q < m {
      SlicesRun(reqStart, reqStop, m, maxQ, q + maxQ);
    }
  }

  // A slice of at most MaxQueries queries respects the budget, and a group that fits
  // or has no keys is not cut.
  lemma SliceBudget(w: Work, s: int, e: int, q: int)
    requires w.Valid() && w.Admissible(s, e) && 0 <= q <= w.MaxQueries(s, e)
    ensures var m, n := SumRange(w.queries, s, e), SumRange(w.keys, s, e);
            q * n <= Max(w.logits, n) && ((w.Fits(s, e) || n == 0) ==> m <= w.MaxQueries(s, e))
  {
    var m, n := SumRange(w.queries, s, e), SumRange(w.keys, s, e);
    SumNonNegative(w.keys, s, e);
    if n > 0 {
      if q <= w.logits / n {
        DivBound(w.logits, n, q);
      } else {
        assert q <= 1;
        assert q * n <= n;
      }
      if w.Fits(s, e) {
        DivAtLeast(w.logits, n, m);
      }
    }
  }

  function GroupSlices(w: Work, s: int, e: int): seq<Chunk>
    requires w.Valid() && w.Admissible(s, e)
  {
    Slices(s + w.offset, e + w.offset, SumRange(w.queries, s, e), w.MaxQueries(s, e), 0)
  }

  lemma GroupChunksOk(w: Work, s: int, e: int)
    requires w.Valid() && w.Admissible(s, e)
    ensures AllOk(w, GroupSlices(w, s, e))
  {
    var m, maxQ := SumRange(w.queries, s, e), w.MaxQueries(s, e);
    var cs := GroupSlices(w, s, e);
    SlicesRun(s + w.offset, e + w.offset, m, maxQ, 0);
    forall i {:trigger cs[i]} | 0 <= i < |cs|
      ensures ChunkOk(w, cs[i])
    {
      SliceBudget(w, s, e, cs[i].qStop - cs[i].qStart);
      if m <= maxQ {
        WholeSlice(cs, s + w.offset, e + w.offset, m, maxQ, i);
      }
    }
  }

  lemma GroupSlicesOk(w: Work, s: int, e: int)
    requires w.Valid() && w.Admissible(s, e)
    ensures AllIn(w, GroupSlices(w, s, e)) && SlicesOk(w, GroupSlices(w, s, e))
  {
    var m, maxQ := SumRange(w.queries, s, e), w.MaxQueries(s, e);
    var cs := GroupSlices(w, s, e);
    SlicesRun(s + w.offset, e + w.offset, m, maxQ, 0);
    assert AllIn(w, cs);
    SumNonNegative(w.keys, s, e);
    SliceBudget(w, s, e, 0);
    forall i {:trigger cs[i]} | 0 <= i < |cs|
      ensures SliceOk(w, cs[i])
    {
      if m <= maxQ {
        WholeSlice(cs, s + w.offset, e + w.offset, m, maxQ, i);
      }
    }
  }

  predicate SlicesOk(w: Work, cs: seq<Chunk>)
    requires AllIn(w, cs)
  {
    forall i {:trigger cs[i]} :: 0 <= i < |cs| ==> SliceOk(w, cs[i])
  }

  lemma WholeSlice(cs: seq<Chunk>, reqStart: int, reqStop: int, m: int, maxQ: int, i: int)
    requires maxQ >= 1 && m <= maxQ && cs == Slices(reqStart, reqStop, m, maxQ, 0) && 0 <= i < |cs|
    ensures cs[i].qStart == 0 && cs[i].qStop == m
  {
  }

  lemma RunTiles(w: Work, cs: seq<Chunk>, s: int, e: int, maxQ: int)
    requires w.Valid() && 0 <= s < e <= |w.keys| && AllIn(w, cs)
    requires SliceRun(cs, s + w.offset, e + w.offset, SumRange(w.queries, s, e), maxQ, 0)
    ensures Tiles(w, cs, SumRange(w.queries, 0, s), SumRange(w.queries, 0, e))
    ensures Linked(cs) && (cs != [] ==> cs[0].qStart == 0)
  {
    SumSplit(w.queries, 0, s, e);
    SumNonNegative(w.queries, s, e);
  }

  lemma GroupTiles(w: Work, s: int, e: int)
    requires w.Valid() && w.Admissible(s, e)
    ensures AllIn(w, GroupSlices(w, s, e))
    ensures Tiles(w, GroupSlices(w, s, e), SumRange(w.queries, 0, s), SumRange(w.queries, 0, e))
    ensures Linked(GroupSlices(w, s, e))
    ensures GroupSlices(w, s, e) != [] ==> GroupSlices(w, s, e)[0].qStart == 0
  {
    var m, maxQ := SumRange(w.queries, s, e), w.MaxQueries(s, e);
    var cs := GroupSlices(w, s, e);
    SlicesRun(s + w.offset, e + w.offset, m, maxQ, 0);
    assert AllIn(w, cs);
    RunTiles(w, cs, s, e, maxQ);
  }

  lemma TilesConcat(w: Work, a: seq<Chunk>, b: seq<Chunk>, lo: int, mid: int, hi: int)
    requires AllIn(w, a) && AllIn(w, b) && Tiles(w, a, lo, mid) && Tiles(w, b, mid, hi)
    ensures AllIn(w, a + b) && Tiles(w, a + b, lo, hi)
  {
    var c := a + b;
    forall i | 0 < i < |c|
      ensures w.TokenStop(c[i - 1]) == w.TokenStart(c[i])
    {
      if i < |a| {
        assert c[i - 1] == a[i - 1] && c[i] == a[i];
      } else if i > |a| {
        assert c[i - 1] == b[i - |a| - 1] && c[i] == b[i - |a|];
      }
    }
  }

  lemma LinkedConcat(a: seq<Chunk>, b: seq<Chunk>)
    requires Linked(a) && Linked(b) && (b != [] ==> b[0].qStart == 0)
    ensures Linked(a + b)
  {
    var c := a + b;
    forall i | 0 <= i < |c| && c[i].qStart > 0
      ensures i > 0 && Continues(c[i - 1], c[i])
    {
      if i < |a| {
        assert c[i] == a[i];
      } else {
        assert c[i] == b[i - |a|];
      }
    }
  }

  ghost predicate Admitted(w: Work, cuts: seq<int>) {
    && w.Valid() && Within(cuts, |w.keys|) && |cuts| > 0 && cuts[0] == 0
    && forall i :: 0 <= i < |cuts| - 1 ==> w.Admissible(cuts[i], cuts[i + 1])
  }

  lemma LastGroup(w: Work, cuts: seq<int>)
    requires Admitted(w, cuts) && |cuts| > 1
    ensures Admitted(w, cuts[..|cuts| - 1]) && w.Admissible(cuts[|cuts| - 2], cuts[|cuts| - 1])
    ensures PlanOf(w, cuts) == PlanOf(w, cuts[..|cuts| - 1]) + GroupSlices(w, cuts[|cuts| - 2], cuts[|cuts| - 1])
  {
    assert w.Admissible(cuts[|cuts| - 2], cuts[|cuts| - 2 + 1]);
  }

  lemma AllOkConcat(w: Work, a: seq<Chunk>, b: seq<Chunk>)
    requires AllOk(w, a) && AllOk(w, b)
    ensures AllOk(w, a + b)
  {
  }

  lemma {:induction false} PlanChunksOk(w: Work, cuts: seq<int>)
    requires Admitted(w, cuts)
    ensures AllOk(w, PlanOf(w, cuts))
  {
    if |cuts| > 1 {
      var init, s, e := cuts[..|cuts| - 1], cuts[|cuts| - 2], cuts[|cuts| - 1];
      LastGroup(w, cuts);
      PlanChunksOk(w, init);
      GroupChunksOk(w, s, e);
      AllOkConcat(w, PlanOf(w, init), GroupSlices(w, s, e));
    }
  }

  lemma {:induction false} PlanSlicesOk(w: Work, cuts: seq<int>)
    requires Admitted(w, cuts)
    ensures AllIn(w, PlanOf(w, cuts)) && SlicesOk(w, PlanOf(w, cuts))
  {
    if |cuts| > 1 {
      var init, s, e := cuts[..|cuts| - 1], cuts[|cuts| - 2], cuts[|cuts| - 1];
      LastGroup(w, cuts);
      PlanSlicesOk(w, init);
      GroupSlicesOk(w, s, e);
      SlicesOkConcat(w, PlanOf(w, init), GroupSlices(w, s, e));
    }
  }

  lemma SlicesOkConcat(w: Work, a: seq<Chunk>, b: seq<Chunk>)
    requires AllIn(w, a) && AllIn(w, b) && SlicesOk(w, a) && SlicesOk(w, b)
    ensures AllIn(w, a + b) && SlicesOk(w, a + b)
  {
  }

  /** No group is cut more than the logits budget demands. */
  lemma SplitCutsOnlyWhatItMust(w: Work, chunks: seq<Chunk>)
    requires IsPlan(w, chunks)
    ensures AllIn(w, chunks) && SlicesOk(w, chunks)
  {
    var cuts :| PlannedTo(w, cuts, |w.keys|, chunks);
    PlanAdmits(w, cuts, chunks);
    PlanSlicesOk(w, cuts);
  }

  lemma PlanAdmits(w: Work, cuts: seq<int>, chunks: seq<Chunk>)
    requires PlannedTo(w, cuts, |w.keys|, chunks)
    ensures Admitted(w, cuts) && chunks == PlanOf(w, cuts)
  {
    forall i | 0 <= i < |cuts| - 1
      ensures w.Admissible(cuts[i], cuts[i + 1])
    {
      assert w.Test()(cuts[i], cuts[i + 1]);
    }
  }

  lemma {:induction false} PlanTiles(w: Work, cuts: seq<int>)
    requires Admitted(w, cuts)
    ensures AllIn(w, PlanOf(w, cuts)) && Linked(PlanOf(w, cuts))
    ensures Tiles(w, PlanOf(w, cuts), 0, SumRange(w.queries, 0, cuts[|cuts| - 1]))
  {
    if |cuts| > 1 {
      var init, s, e := cuts[..|cuts| - 1], cuts[|cuts| - 2], cuts[|cuts| - 1];
      LastGroup(w, cuts);
      PlanTiles(w, init);
      var plan, group := PlanOf(w, init), GroupSlices(w, s, e);
      GroupTiles(w, s, e);
      TilesConcat(w, plan, group, 0, SumRange(w.queries, 0, s), SumRange(w.queries, 0, e));
      LinkedConcat(plan, group);
    }
  }

  /** Main result on the split: every chunk is within budget, and the chunks' token
      ranges tile all prefill tokens once and in order. */
  lemma SplitTilesAllTokens(w: Work, chunks: seq<Chunk>)
    requires IsPlan(w, chunks)
    ensures AllOk(w, chunks)
    ensures Linked(chunks)
    ensures Tiles(w, chunks, 0, SumRange(w.queries, 0, |w.keys|))
  {
    var cuts :| PlannedTo(w, cuts, |w.keys|, chunks);
    PlanAdmits(w, cuts, chunks);
    PlanChunksOk(w, cuts);
    PlanTiles(w, cuts);
  }

  /** If every request alone fits the gather workspace, so does every chunk. */
  lemma ChunkFitsWorkspace(w: Work, c: Chunk)
    requires w.Valid() && ChunkOk(w, c)
    requires forall r :: 0 <= r < |w.keys| ==> w.keys[r] <= w.workspace
    ensures w.Keys(c) <= w.workspace
  {
    if c.reqStop - c.reqStart == 1 {
      var s := c.reqStart - w.offset;
      assert SumRange(w.keys, s, s + 1) == SumRange(w.keys, s, s) + w.keys[s];
    }
  }

  /** `starts` are the batch's query offsets on the host, the decodes first; the work's
      queries are the lengths behind them. */
  ghost predicate Offsets(w: Work, starts: seq<int>) {
    && ValidStarts(starts) && 0 <= w.offset && |w.keys| == |w.queries| && |starts| == w.offset + |w.queries| + 1
    && forall i {:trigger w.queries[i]} :: 0 <= i < |w.queries| ==>
         w.queries[i] == starts[w.offset + i + 1] - starts[w.offset + i]
  }

  lemma {:induction false} OffsetOf(w: Work, starts: seq<int>, s: nat)
    requires Offsets(w, starts) && s <= |w.queries|
    ensures starts[w.offset + s] == starts[w.offset] + SumRange(w.queries, 0, s)
  {
    if s > 0 {
      OffsetOf(w, starts, s - 1);
      assert w.queries[s - 1] == starts[w.offset + (s - 1) + 1] - starts[w.offset + (s - 1)];
    }
  }

  /** One chunk as it reaches the kernels. */
  datatype ChunkPlan = ChunkPlan(chunk: Chunk, tokenStart: int, tokenStop: int, skipGather: bool)

  function Planned(starts: seq<int>, c: Chunk): ChunkPlan
    requires 0 <= c.reqStart < |starts|
  {
    ChunkPlan(c, starts[c.reqStart] + c.qStart, starts[c.reqStart] + c.qStop, c.qStart > 0)
  }

  /** The chunks that have compressed keys to score. */
  ghost function Kept(w: Work, starts: seq<int>, cs: seq<Chunk>): seq<ChunkPlan>
    requires AllIn(w, cs) && Offsets(w, starts)
  {
    if cs == [] then []
    else
      var last := cs[|cs| - 1];
      Kept(w, starts, cs[..|cs| - 1]) + if w.Keys(last) == 0 then [] else [Planned(starts, last)]
  }

  method DropEmptyChunks(w: Work, starts: seq<int>, specs: seq<Chunk>) returns (kept: seq<ChunkPlan>)
    requires AllIn(w, specs) && Offsets(w, starts)
    ensures kept == Kept(w, starts, specs)
  {
    kept := [];
    for i := 0 to |specs|
      invariant kept == Kept(w, starts, specs[..i])
    {
      var c := specs[i];
      assert specs[..i + 1][..i] == specs[..i];
      var totalSeqLens := SumRange(w.keys, c.reqStart - w.offset, c.reqStop - w.offset);
      if totalSeqLens != 0 {
        var tokenBase := starts[c.reqStart];
        kept := kept + [ChunkPlan(c, tokenBase + c.qStart, tokenBase + c.qStop, c.qStart > 0)];
      }
    }
    assert specs[..|specs|] == specs;
  }

  /** A kept chunk is within its budgets, has keys, and carries the token range of its
      queries, counted from the query offset of its first request. */
  ghost predicate KeptOk(w: Work, starts: seq<int>, k: ChunkPlan) {
    && ChunkOk(w, k.chunk) && w.Keys(k.chunk) != 0 && 0 <= k.chunk.reqStart < |starts|
    && k.tokenStart == starts[k.chunk.reqStart] + k.chunk.qStart
    && k.tokenStop == starts[k.chunk.reqStart] + k.chunk.qStop
    && (k.skipGather <==> k.chunk.qStart > 0)
  }

  ghost predicate AllKeptOk(w: Work, starts: seq<int>, kept: seq<ChunkPlan>) {
    forall k :: 0 <= k < |kept| ==> KeptOk(w, starts, kept[k])
  }

  /** The chunks' token ranges follow one another from `lo` to `hi`. */
  ghost predicate RangesTile(starts: seq<int>, cs: seq<Chunk>, lo: int, hi: int) {
    && (forall i {:trigger cs[i]} :: 0 <= i < |cs| ==> 0 <= cs[i].reqStart < |starts|)
    && if cs == [] then lo == hi
       else
         && starts[cs[0].reqStart] + cs[0].qStart == lo
         && starts[cs[|cs| - 1].reqStart] + cs[|cs| - 1].qStop == hi
         && forall i :: 0 < i < |cs| ==>
              starts[cs[i - 1].reqStart] + cs[i - 1].qStop == starts[cs[i].reqStart] + cs[i].qStart
  }

  lemma TilesInTokens(w: Work, starts: seq<int>, cs: seq<Chunk>, lo: int, hi: int)
    requires Offsets(w, starts) && AllIn(w, cs) && Tiles(w, cs, lo, hi)
    ensures RangesTile(starts, cs, starts[w.offset] + lo, starts[w.offset] + hi)
  {
    forall i {:trigger cs[i]} | 0 <= i < |cs|
      ensures AtOffset(w, starts, cs[i], starts[w.offset])
    {
      OffsetOf(w, starts, cs[i].reqStart - w.offset);
    }
    TilesShifted(w, starts, cs, lo, hi, starts[w.offset]);
  }

  /** The chunk's first request starts at `base` and the tokens in front of it. */
  ghost predicate AtOffset(w: Work, starts: seq<int>, c: Chunk, base: int) {
    w.InRange(c) && 0 <= c.reqStart < |starts| && starts[c.reqStart] + c.qStart == base + w.TokenStart(c)
  }

  lemma TilesShifted(w: Work, starts: seq<int>, cs: seq<Chunk>, lo: int, hi: int, base: int)
    requires AllIn(w, cs) && Tiles(w, cs, lo, hi)
    requires forall i {:trigger cs[i]} :: 0 <= i < |cs| ==> AtOffset(w, starts, cs[i], base)
    ensures RangesTile(starts, cs, base + lo, base + hi)
  {
    forall i | 0 < i < |cs|
      ensures starts[cs[i - 1].reqStart] + cs[i - 1].qStop == starts[cs[i].reqStart] + cs[i].qStart
    {
      assert AtOffset(w, starts, cs[i - 1], base) && AtOffset(w, starts, cs[i], base);
    }
  }

  lemma PlanInTokens(w: Work, starts: seq<int>, specs: seq<Chunk>)
    requires Offsets(w, starts) && AllIn(w, specs) && Tiles(w, specs, 0, SumRange(w.queries, 0, |w.keys|))
    ensures RangesTile(starts, specs, starts[w.offset], starts[|starts| - 1])
  {
    OffsetOf(w, starts, |w.keys|);
    TilesInTokens(w, starts, specs, 0, SumRange(w.queries, 0, |w.keys|));
  }

  /** What the chunks handed out are, for some plan of all prefill requests: the token ranges
      of all planned chunks tile the prefill tokens, and those with compressed keys are kept,
      each with its own range. */
  ghost predicate HandedOut(w: Work, starts: seq<int>, specs: seq<Chunk>, kept: seq<ChunkPlan>) {
    && Offsets(w, starts) && IsPlan(w, specs) && AllOk(w, specs) && kept == Kept(w, starts, specs)
    && RangesTile(starts, specs, starts[w.offset], starts[|starts| - 1])
    && AllKeptOk(w, starts, kept) && GatherLinked(kept)
  }

  lemma PlanIsHandedOut(w: Work, starts: seq<int>, specs: seq<Chunk>)
    requires Offsets(w, starts) && IsPlan(w, specs)
    ensures AllIn(w, specs) && HandedOut(w, starts, specs, Kept(w, starts, specs))
  {
    SplitTilesAllTokens(w, specs);
    PlanInTokens(w, starts, specs);
    SkippedGatherFollows(w, starts, specs);
    KeptHaveKeys(w, starts, specs);
  }

  ghost predicate Covers(k: ChunkPlan, p: int) { k.tokenStart <= p < k.tokenStop }

  /** No token is in two of the chunks handed out. */
  ghost predicate InOrder(kept: seq<ChunkPlan>, hi: int) {
    && (forall i :: 0 <= i < |kept| ==> kept[i].tokenStop <= hi)
    && forall i, j :: 0 <= i < j < |kept| ==> kept[i].tokenStop <= kept[j].tokenStart
  }

  lemma InOrderAppend(kept: seq<ChunkPlan>, k: ChunkPlan, mid: int, hi: int)
    requires InOrder(kept, mid) && mid <= k.tokenStart && k.tokenStop <= hi && mid <= hi
    ensures InOrder(kept + [k], hi)
  {
  }

  lemma {:induction false} KeptInOrder(w: Work, starts: seq<int>, cs: seq<Chunk>, lo: int, hi: int)
    requires Offsets(w, starts) && AllOk(w, cs) && RangesTile(starts, cs, lo, hi)
    ensures InOrder(Kept(w, starts, cs), hi)
  {
    if cs != [] {
      var n := |cs| - 1;
      var init, last := cs[..n], cs[n];
      assert forall i :: 0 <= i < n ==> init[i] == cs[i];
      var mid := starts[last.reqStart] + last.qStart;
      KeptInOrder(w, starts, init, lo, mid);
      if w.Keys(last) != 0 {
        InOrderAppend(Kept(w, starts, init), Planned(starts, last), mid, hi);
      }
    }
  }

  /** The chunk whose range holds token `p`. */
  lemma {:induction false} ChunkOfToken(starts: seq<int>, cs: seq<Chunk>, lo: int, hi: int, p: int) returns (i: int)
    requires RangesTile(starts, cs, lo, hi) && lo <= p < hi
    requires forall i {:trigger cs[i]} :: 0 <= i < |cs| ==> cs[i].qStart <= cs[i].qStop
    ensures 0 <= i < |cs| && starts[cs[i].reqStart] + cs[i].qStart <= p < starts[cs[i].reqStart] + cs[i].qStop
  {
    var n := |cs| - 1;
    var init, last := cs[..n], cs[n];
    if starts[last.reqStart] + last.qStart <= p {
      i := n;
    } else {
      assert forall i :: 0 <= i < n ==> init[i] == cs[i];
      i := ChunkOfToken(starts, init, lo, starts[last.reqStart] + last.qStart, p);
    }
  }

  lemma {:induction false} KeptIfKeys(w: Work, starts: seq<int>, cs: seq<Chunk>, i: int) returns (k: int)
    requires Offsets(w, starts) && AllIn(w, cs) && 0 <= i < |cs| && w.Keys(cs[i]) != 0
    ensures 0 <= k < |Kept(w, starts, cs)| && Kept(w, starts, cs)[k] == Planned(starts, cs[i])
  {
    var n := |cs| - 1;
    if i == n {
      k := |Kept(w, starts, cs)| - 1;
    } else {
      k := KeptIfKeys(w, starts, cs[..n], i);
    }
  }

  lemma NoKeysInGroup(w: Work, s: int, e: int, i: int)
    requires w.Valid() && 0 <= s <= i < e <= |w.keys| && SumRange(w.keys, s, e) == 0
    ensures w.keys[i] == 0
  {
    SumOfPart(w.keys, s, i, i + 1, e);
    assert SumRange(w.keys, i, i + 1) == SumRange(w.keys, i, i) + w.keys[i];
  }

  lemma RequestInChunk(w: Work, starts: seq<int>, c: Chunk, p: int)
    requires Offsets(w, starts) && ChunkOk(w, c)
    requires starts[c.reqStart] + c.qStart <= p < starts[c.reqStart] + c.qStop
    ensures 0 <= p < Total(starts) && c.reqStart <= ReqOf(starts, p) < c.reqStop
  {
    var s, e := c.reqStart - w.offset, c.reqStop - w.offset;
    OffsetOf(w, starts, s);
    OffsetOf(w, starts, e);
    SumSplit(w.queries, 0, s, e);
    ReqOfWithin(starts, p, c.reqStart, c.reqStop);
  }

  /** Main result on what is handed out: no prefill token is in two chunks (`KeptInOrder`),
      and a token is in one unless its request has no compressed keys. */
  lemma EveryTokenOnce(w: Work, starts: seq<int>, specs: seq<Chunk>, p: int) returns (k: int)
    requires w.Valid() && Offsets(w, starts) && AllOk(w, specs)
    requires RangesTile(starts, specs, starts[w.offset], Total(starts)) && starts[w.offset] <= p < Total(starts)
    ensures w.offset <= ReqOf(starts, p) < w.offset + |w.keys|
    ensures w.keys[ReqOf(starts, p) - w.offset] != 0 ==>
              0 <= k < |Kept(w, starts, specs)| && Covers(Kept(w, starts, specs)[k], p)
  {
    var i := ChunkOfToken(starts, specs, starts[w.offset], Total(starts), p);
    k := TokenInChunk(w, starts, specs, i, p);
  }

  lemma TokenInChunk(w: Work, starts: seq<int>, specs: seq<Chunk>, i: int, p: int) returns (k: int)
    requires w.Valid() && Offsets(w, starts) && AllOk(w, specs) && 0 <= i < |specs|
    requires starts[specs[i].reqStart] + specs[i].qStart <= p < starts[specs[i].reqStart] + specs[i].qStop
    ensures 0 <= p < Total(starts) && w.offset <= ReqOf(starts, p) < w.offset + |w.keys|
    ensures w.keys[ReqOf(starts, p) - w.offset] != 0 ==>
              0 <= k < |Kept(w, starts, specs)| && Covers(Kept(w, starts, specs)[k], p)
  {
    RequestInChunk(w, starts, specs[i], p);
    k := 0;
    if w.Keys(specs[i]) != 0 {
      k := KeptIfKeys(w, starts, specs, i);
    } else {
      NoKeysInGroup(w, specs[i].reqStart - w.offset, specs[i].reqStop - w.offset, ReqOf(starts, p) - w.offset);
    }
  }

  ghost predicate Covered(kept: seq<ChunkPlan>, p: int) {
    exists k :: 0 <= k < |kept| && Covers(kept[k], p)
  }

  /** Every token from the first prefill on whose request has compressed keys is in a chunk. */
  ghost predicate TokensCovered(keys: seq<int>, starts: seq<int>, numDecodes: nat, kept: seq<ChunkPlan>) {
    && ValidStarts(starts) && numDecodes + |keys| + 1 == |starts|
    && forall p {:trigger ReqOf(starts, p)} :: starts[numDecodes] <= p < Total(starts) ==>
         numDecodes <= ReqOf(starts, p) && (keys[ReqOf(starts, p) - numDecodes] != 0 ==> Covered(kept, p))
  }

  lemma CoverageOf(w: Work, starts: seq<int>, specs: seq<Chunk>)
    requires w.Valid() && Offsets(w, starts) && IsPlan(w, specs)
    ensures AllIn(w, specs) && IsHandedOut(w, starts, Kept(w, starts, specs))
    ensures InOrder(Kept(w, starts, specs), Total(starts))
    ensures TokensCovered(w.keys, starts, w.offset, Kept(w, starts, specs))
  {
    PlanIsHandedOut(w, starts, specs);
    KeptInOrder(w, starts, specs, starts[w.offset], Total(starts));
    KeptCover(w, starts, specs);
  }

  lemma KeptCover(w: Work, starts: seq<int>, specs: seq<Chunk>)
    requires w.Valid() && Offsets(w, starts) && AllOk(w, specs)
    requires RangesTile(starts, specs, starts[w.offset], Total(starts))
    ensures TokensCovered(w.keys, starts, w.offset, Kept(w, starts, specs))
  {
    forall p {:trigger ReqOf(starts, p)} | starts[w.offset] <= p < Total(starts)
      ensures w.offset <= ReqOf(starts, p)
      ensures w.keys[ReqOf(starts, p) - w.offset] != 0 ==> Covered(Kept(w, starts, specs), p)
    {
      var k := EveryTokenOnce(w, starts, specs, p);
    }
  }

  /** The split's inputs, from the batch's query offsets. */
  function WorkOf(keys: seq<int>, starts: seq<int>, workspaceSize: int, maxLogitsBytes: int, numDecodes: nat): Work
    requires |keys| + numDecodes < |starts|
  {
    Work(keys, seq(|keys|, i requires 0 <= i < |keys| => starts[numDecodes + i + 1] - starts[numDecodes + i]),
         workspaceSize, maxLogitsBytes / 4, numDecodes)
  }

  ghost predicate IsHandedOut(w: Work, starts: seq<int>, kept: seq<ChunkPlan>) {
    exists specs :: HandedOut(w, starts, specs, kept)
  }

  /** The builder's prefill loop: split, then drop the chunks without compressed keys.  What is
      handed out belongs to a plan of all prefill requests; no token is in two chunks, and a
      token is in one unless its request has no compressed keys. */
  method BuildPrefillChunks(keys: seq<int>, starts: seq<int>, workspaceSize: int, maxLogitsBytes: int,
                            numDecodes: nat)
    returns (kept: seq<ChunkPlan>)
    requires ValidStarts(starts) && numDecodes < |starts| && |keys| == |starts| - 1 - numDecodes && NonNegative(keys)
    ensures IsHandedOut(WorkOf(keys, starts, workspaceSize, maxLogitsBytes, numDecodes), starts, kept)
    ensures InOrder(kept, Total(starts))
    ensures TokensCovered(keys, starts, numDecodes, kept)
  {
    var w := WorkOf(keys, starts, workspaceSize, maxLogitsBytes, numDecodes);
    WorkIsValid(keys, starts, workspaceSize, maxLogitsBytes, numDecodes);
    var specs := SplitIndexerPrefillChunks(keys, w.queries, workspaceSize, maxLogitsBytes, numDecodes);
    CoverageOf(w, starts, specs);
    kept := DropEmptyChunks(w, starts, specs);
  }

  lemma WorkIsValid(keys: seq<int>, starts: seq<int>, workspaceSize: int, maxLogitsBytes: int, numDecodes: nat)
    requires ValidStarts(starts) && |keys| == |starts| - 1 - numDecodes && NonNegative(keys)
    ensures WorkOf(keys, starts, workspaceSize, maxLogitsBytes, numDecodes).Valid()
    ensures Offsets(WorkOf(keys, starts, workspaceSize, maxLogitsBytes, numDecodes), starts)
  {
  }

  predicate GatherLinked(k: seq<ChunkPlan>) {
    forall i :: 0 <= i < |k| && k[i].skipGather ==> i > 0 && Continues(k[i - 1].chunk, k[i].chunk)
  }

  lemma GatherLinkedAppend(k: seq<ChunkPlan>, p: ChunkPlan)
    requires GatherLinked(k) && (p.skipGather ==> k != [] && Continues(k[|k| - 1].chunk, p.chunk))
    ensures GatherLinked(k + [p])
  {
    var k' := k + [p];
    assert forall i :: 0 <= i < |k| ==> k'[i] == k[i];
  }

  lemma LastIsKept(w: Work, starts: seq<int>, cs: seq<Chunk>)
    requires AllIn(w, cs) && Offsets(w, starts) && cs != [] && w.Keys(cs[|cs| - 1]) != 0
    ensures Kept(w, starts, cs) != [] && Kept(w, starts, cs)[|Kept(w, starts, cs)| - 1].chunk == cs[|cs| - 1]
  {
  }

  /** Every kept chunk that skips the gather continues the kept chunk before it. */
  lemma {:induction false} SkippedGatherFollows(w: Work, starts: seq<int>, cs: seq<Chunk>)
    requires Linked(cs) && AllIn(w, cs) && Offsets(w, starts)
    ensures GatherLinked(Kept(w, starts, cs))
  {
    if cs != [] {
      var n := |cs| - 1;
      var init, last := cs[..n], cs[n];
      assert forall i :: 0 <= i < n ==> init[i] == cs[i];
      SkippedGatherFollows(w, starts, init);
      if w.Keys(last) != 0 {
        if last.qStart > 0 {
          assert Continues(cs[n - 1], cs[n]);
          LastIsKept(w, starts, init);
        }
        GatherLinkedAppend(Kept(w, starts, init), Planned(starts, last));
      }
    }
  }

  /** So the gather it relies on was done: some earlier kept chunk of the same requests
      gathered, and only chunks of these requests lie in between. */
  lemma {:induction false} GatherIsStillThere(w: Work, starts: seq<int>, cs: seq<Chunk>, i: int) returns (g: int)
    requires Linked(cs) && AllIn(w, cs) && Offsets(w, starts)
    requires 0 <= i < |Kept(w, starts, cs)|
    ensures 0 <= g <= i && !Kept(w, starts, cs)[g].skipGather
    ensures forall j :: g <= j <= i ==>
              && Kept(w, starts, cs)[j].chunk.reqStart == Kept(w, starts, cs)[i].chunk.reqStart
              && Kept(w, starts, cs)[j].chunk.reqStop == Kept(w, starts, cs)[i].chunk.reqStop
    decreases i
  {
    SkippedGatherFollows(w, starts, cs);
    if Kept(w, starts, cs)[i].skipGather {
      g := GatherIsStillThere(w, starts, cs, i - 1);
    } else {
      g := i;
    }
  }

  /** What is dropped: exactly the chunks of groups without compressed keys, each of
      them a whole group. */
  lemma {:induction false} DroppedChunksHaveNoKeys(w: Work, starts: seq<int>, cs: seq<Chunk>, c: Chunk)
    requires AllOk(w, cs) && Offsets(w, starts)
    requires c in cs
    ensures Planned(starts, c) !in Kept(w, starts, cs) <==> w.Keys(c) == 0
    ensures w.Keys(c) == 0 ==> c.qStart == 0 && c.qStop == w.Queries(c)
  {
    var last := cs[|cs| - 1];
    var init := cs[..|cs| - 1];
    KeptHaveKeys(w, starts, cs);
    if c != last {
      assert c in init;
      DroppedChunksHaveNoKeys(w, starts, init, c);
    }
  }

  lemma {:induction false} KeptHaveKeys(w: Work, starts: seq<int>, cs: seq<Chunk>)
    requires AllOk(w, cs) && Offsets(w, starts)
    ensures AllKeptOk(w, starts, Kept(w, starts, cs))
  {
    if cs != [] {
      KeptHaveKeys(w, starts, cs[..|cs| - 1]);
    }
  }
}
