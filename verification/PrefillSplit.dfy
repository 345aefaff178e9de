/** Splitting prefill requests into indexer chunks: in-order request groups under a
    workspace budget and a logits budget, with oversized single requests cut further
    along the query dimension. */
module PrefillSplit {
  import opened Arith
  import opened Sums
  import opened GreedyPartition

  /** One planned piece of work: requests `[reqStart, reqStop)`, and of their queries,
      counted from the first query of the group, `[qStart, qStop)`. */
  datatype Chunk = Chunk(reqStart: int, reqStop: int, qStart: int, qStop: int)

  /** The inputs of one split; `logits` is the logits budget in elements. */
  datatype Work = Work(keys: seq<int>, queries: seq<int>, workspace: int, logits: int, offset: int)
  {
    ghost predicate Valid() {
      |keys| == |queries| && NonNegative(keys) && NonNegative(queries)
    }

    predicate Fits(s: int, e: int)
      requires |keys| == |queries| && 0 <= s <= e <= |keys|
    {
      SumRange(keys, s, e) <= workspace && SumRange(queries, s, e) * SumRange(keys, s, e) <= logits
    }

    predicate Admissible(s: int, e: int)
      requires |keys| == |queries|
    {
      0 <= s < e <= |keys| && (e == s + 1 || Fits(s, e))
    }

    function Test(): (int, int) -> bool
      requires |keys| == |queries|
    {
      (s, e) => Admissible(s, e)
    }

    predicate InRange(c: Chunk) {
      |keys| == |queries| && offset <= c.reqStart < c.reqStop <= offset + |keys|
    }

    function Keys(c: Chunk): int
      requires InRange(c)
    {
      SumRange(keys, c.reqStart - offset, c.reqStop - offset)
    }

    function Queries(c: Chunk): int
      requires InRange(c)
    {
      SumRange(queries, c.reqStart - offset, c.reqStop - offset)
    }

    /** First and last-plus-one token of a chunk, from the first prefill token. */
    function TokenStart(c: Chunk): int
      requires InRange(c)
    {
      SumRange(queries, 0, c.reqStart - offset) + c.qStart
    }

    function TokenStop(c: Chunk): int
      requires InRange(c)
    {
      SumRange(queries, 0, c.reqStart - offset) + c.qStop
    }

    function MaxQueries(s: int, e: int): (q: int)
      requires |keys| == |queries| && 0 <= s <= e <= |keys|
      ensures q >= 1
    {
      var m, n := SumRange(queries, s, e), SumRange(keys, s, e);
      if n > 0 then Max(1, logits / n) else Max(1, m)
    }
  }

  lemma AdmissibleIsHereditary(w: Work)
    requires w.Valid()
    ensures Hereditary(|w.keys|, w.Test())
  {
    forall s, e, s', e' | 0 <= s <= s' < e' <= e <= |w.keys| && w.Admissible(s, e)
      ensures w.Admissible(s', e')
    {
      if e' != s' + 1 {
        SumOfPart(w.keys, s, s', e', e);
        SumOfPart(w.queries, s, s', e', e);
        ProductMonotone(SumRange(w.queries, s, e), SumRange(w.keys, s, e),
                        SumRange(w.queries, s', e'), SumRange(w.keys, s', e'));
      }
    }
  }

  /** The query slices of one group from query `q` on. */
  function Slices(reqStart: int, reqStop: int, m: int, maxQ: int, q: int): seq<Chunk>
    requires maxQ >= 1
    decreases m - q
  {
    if q >= m then []
    else [Chunk(reqStart, reqStop, q, q + Min(maxQ, m - q))] + Slices(reqStart, reqStop, m, maxQ, q + maxQ)
  }

  predicate Within(cuts: seq<int>, n: int) {
    && (forall i :: 0 <= i < |cuts| ==> 0 <= cuts[i] <= n)
    && forall i, j :: 0 <= i < j < |cuts| ==> cuts[i] < cuts[j]
  }

  /** The chunks of the groups between consecutive cuts. */
  function PlanOf(w: Work, cuts: seq<int>): seq<Chunk>
    requires |w.keys| == |w.queries| && Within(cuts, |w.keys|)
  {
    if |cuts| < 2 then []
    else
      var s, e := cuts[|cuts| - 2], cuts[|cuts| - 1];
      PlanOf(w, cuts[..|cuts| - 1]) +
      Slices(s + w.offset, e + w.offset, SumRange(w.queries, s, e), w.MaxQueries(s, e), 0)
  }

  lemma OversizedStaysOversized(w: Work, s: int)
    requires w.Valid() && 0 <= s && s + 2 <= |w.keys| && !w.Fits(s, s + 1)
    ensures !w.Fits(s, s + 2)
  {
    SumOfPart(w.keys, s, s, s + 1, s + 2);
    SumOfPart(w.queries, s, s, s + 1, s + 2);
    ProductMonotone(SumRange(w.queries, s, s + 2), SumRange(w.keys, s, s + 2),
                    SumRange(w.queries, s, s + 1), SumRange(w.keys, s, s + 1));
  }

  /** The inner greedy loop: the longest group from `start`, or the single request. */
  method NextGroup(w: Work, start: int) returns (end: int, chunkM: int, chunkN: int)
    requires w.Valid() && 0 <= start < |w.keys|
    ensures w.Admissible(start, end) && (end == |w.keys| || !w.Admissible(start, end + 1))
    ensures chunkM == SumRange(w.queries, start, end) && chunkN == SumRange(w.keys, start, end)
  {
    var n := |w.keys|;
    end, chunkM, chunkN := start, 0, 0;
    while end < n
      invariant start <= end <= n
      invariant chunkM == SumRange(w.queries, start, end) && chunkN == SumRange(w.keys, start, end)
      invariant start < end ==> w.Fits(start, end)
    {
      var newM, newN := chunkM + w.queries[end], chunkN + w.keys[end];
      if newN <= w.workspace && newM * newN <= w.logits {
        chunkM, chunkN := newM, newN;
        end := end + 1;
      } else {
        assert !w.Fits(start, end + 1);
        break;
      }
    }
    if end == start {
      chunkM, chunkN := w.queries[end], w.keys[end];
      end := end + 1;
      if end < n {
        OversizedStaysOversized(w, start);
      }
    }
  }

  /** The query loop: cuts `[0, m)` into runs of at most `maxQ`. */
  method AppendSlices(chunks: seq<Chunk>, reqStart: int, reqStop: int, m: int, maxQ: int) returns (r: seq<Chunk>)
    requires maxQ >= 1
    ensures r == chunks + Slices(reqStart, reqStop, m, maxQ, 0)
  {
    r := chunks;
    var q := 0;
    while q < m
      invariant 0 <= q
      invariant r + Slices(reqStart, reqStop, m, maxQ, q) == chunks + Slices(reqStart, reqStop, m, maxQ, 0)
      decreases m - q
    {
      var subM := Min(maxQ, m - q);
      r := r + [Chunk(reqStart, reqStop, q, q + subM)];
      q := q + maxQ;
    }
  }

  // The first groups of the plan, ending at request `end`.
  ghost predicate PlannedTo(w: Work, cuts: seq<int>, end: int, chunks: seq<Chunk>) {
    && w.Valid() && 0 <= end <= |w.keys|
    && Partition(cuts, end, w.Test()) && Greedy(cuts, |w.keys|, w.Test())
    && Within(cuts, |w.keys|) && chunks == PlanOf(w, cuts)
  }

  /** The query slices of a greedy partition of all requests. */
  ghost predicate IsPlan(w: Work, chunks: seq<Chunk>) {
    exists cuts :: PlannedTo(w, cuts, |w.keys|, chunks)
  }

  lemma PlanGrows(w: Work, cuts: seq<int>, start: int, end: int, chunks: seq<Chunk>)
    requires PlannedTo(w, cuts, start, chunks)
    requires w.Admissible(start, end) && (end == |w.keys| || !w.Admissible(start, end + 1))
    ensures PlannedTo(w, cuts + [end], end, chunks +
              Slices(start + w.offset, end + w.offset, SumRange(w.queries, start, end), w.MaxQueries(start, end), 0))
  {
    var grown := cuts + [end];
    Extend(cuts, start, end, |w.keys|, w.Test());
    assert grown[..|grown| - 1] == cuts;
  }

  method SplitIndexerPrefillChunks(keys: seq<int>, queries: seq<int>, workspaceSize: int,
                                   maxLogitsBytes: int, requestOffset: int)
    returns (chunks: seq<Chunk>)
    requires |keys| == |queries| && NonNegative(keys) && NonNegative(queries)
    ensures IsPlan(Work(keys, queries, workspaceSize, maxLogitsBytes / 4, requestOffset), chunks)
  {
    var w := Work(keys, queries, workspaceSize, maxLogitsBytes / 4, requestOffset);
    chunks := [];
    ghost var cuts := [0];
    var end := 0;
    while end < |keys|
      invariant PlannedTo(w, cuts, end, chunks)
    {
      var start, chunkM, chunkN := end, 0, 0;
      end, chunkM, chunkN := NextGroup(w, start);
      var maxQ := if chunkN > 0 then Max(1, w.logits / chunkN) else Max(1, chunkM);
      assert maxQ == w.MaxQueries(start, end);
      PlanGrows(w, cuts, start, end, chunks);
      chunks := AppendSlices(chunks, start + requestOffset, end + requestOffset, chunkM, maxQ);
      cuts := cuts + [end];
    }
  }
}
