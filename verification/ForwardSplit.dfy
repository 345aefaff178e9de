/** The attention call split: decode tokens in one call, prefill tokens in calls over fixed
    numbers of requests, each call writing its own slice of the output. */
module ForwardSplit {
  import opened Arith
  import opened Ragged

  /** One attention call is token-wise: output row `i` from query `i` and its index rows. */
  datatype Attention<!Q, !X, !O> = Attention(row: (Q, X) -> O)

  /** The requests of the first `k` calls. */
  function Before(k: int, chunkSize: int, numPrefills: int): int {
    Min(k * chunkSize, numPrefills)
  }

  /** Call `k` covers the tokens of the requests `[k * chunkSize, (k + 1) * chunkSize)` of the
      prefills, as far as there are any. */
  ghost predicate CallIs(call: (int, int), k: int, starts: seq<int>, numDecodes: int, numPrefills: int,
                         chunkSize: int)
  {
    var first := Before(k, chunkSize, numPrefills);
    var last := Before(k + 1, chunkSize, numPrefills);
    && 0 <= numDecodes && 0 <= first <= last && numDecodes + last < |starts|
    && call.0 == starts[numDecodes + first] - starts[numDecodes]
    && call.1 == starts[numDecodes + last] - starts[numDecodes]
  }

  lemma AllCalls(numPrefills: int, chunkSize: int)
    requires chunkSize >= 1 && 0 <= numPrefills
    ensures 0 <= CeilDiv(numPrefills, chunkSize) && (numPrefills > 0 ==> 0 < CeilDiv(numPrefills, chunkSize))
    ensures Before(0, chunkSize, numPrefills) == 0
    ensures Before(CeilDiv(numPrefills, chunkSize), chunkSize, numPrefills) == numPrefills
  {
    CeilDivBounds(numPrefills, chunkSize);
    DivAtLeast(numPrefills + chunkSize - 1, chunkSize, 0);
  }

  lemma CallsFollow(calls: seq<(int, int)>, starts: seq<int>, numDecodes: int, numPrefills: int, chunkSize: int)
    requires chunkSize >= 1 && 0 <= numPrefills && 0 <= numDecodes && numDecodes + numPrefills == |starts| - 1
    requires |calls| == CeilDiv(numPrefills, chunkSize)
    requires forall k :: 0 <= k < |calls| ==> CallIs(calls[k], k, starts, numDecodes, numPrefills, chunkSize)
    ensures forall k :: 0 < k < |calls| ==> calls[k - 1].1 == calls[k].0
    ensures numPrefills > 0 ==>
              calls != [] && calls[0].0 == 0 && calls[|calls| - 1].1 == Total(starts) - starts[numDecodes]
  {
    AllCalls(numPrefills, chunkSize);
    forall k | 0 < k < |calls|
      ensures calls[k - 1].1 == calls[k].0
    {
      assert CallIs(calls[k - 1], k - 1, starts, numDecodes, numPrefills, chunkSize);
    }
    if numPrefills > 0 {
      assert CallIs(calls[0], 0, starts, numDecodes, numPrefills, chunkSize);
    }
  }

  class Forward<Q, X, O> {
    const attention: Attention<Q, X, O>

    constructor (attention: Attention<Q, X, O>)
      ensures this.attention == attention
    {
      this.attention := attention;
    }

    /** The call on slices of equal length, writing `output[at..at + |q|]`. */
    method Call(q: seq<Q>, idx: seq<X>, output: array<O>, at: int)
      requires |q| == |idx| && 0 <= at && at + |q| <= output.Length
      modifies output
      ensures forall i :: 0 <= i < output.Length ==>
                output[i] == if at <= i < at + |q| then attention.row(q[i - at], idx[i - at]) else old(output[i])
    {
      forall i | at <= i < at + |q| { output[i] := attention.row(q[i - at], idx[i - at]); }
    }

    /** One turn of the prefill loop. */
    method ForwardChunk(q: seq<Q>, idx: seq<X>, output: array<O>, base: int, starts: seq<int>,
                        numDecodes: int, numPrefills: int, chunkSize: int, c: int, numChunks: int)
      returns (call: (int, int))
      requires ValidStarts(starts) && 0 <= numDecodes && 0 <= numPrefills && numDecodes + numPrefills == |starts| - 1
      requires chunkSize >= 1 && |q| == |idx| == Total(starts) - starts[numDecodes]
      requires 0 <= base && base + |q| <= output.Length
      requires 0 <= c < numChunks == CeilDiv(numPrefills, chunkSize)
      modifies output
      ensures CallIs(call, c, starts, numDecodes, numPrefills, chunkSize) && 0 <= call.0 <= call.1 <= |q|
      ensures 0 <= Before(c, chunkSize, numPrefills) <= Before(c + 1, chunkSize, numPrefills) <= numPrefills
      ensures forall i :: 0 <= i < output.Length ==>
                output[i] == if base + call.0 <= i < base + call.1 then attention.row(q[i - base], idx[i - base])
                             else old(output[i])
    {
      ChunkBounds(c, numChunks, chunkSize, numPrefills);
      var tokenBase := starts[numDecodes];
      var chunkStart := c * chunkSize;
      var chunkEnd := Min(chunkStart + chunkSize, numPrefills);
      var queryStart := starts[numDecodes + chunkStart] - tokenBase;
      var queryEnd := starts[numDecodes + chunkEnd] - tokenBase;
      Call(q[queryStart..queryEnd], idx[queryStart..queryEnd], output, base + queryStart);
      call := (queryStart, queryEnd);
    }

    /** The prefill loop.  `starts` are the host's query offsets of the whole batch; `q` and
        `idx` begin at the first prefill token; the output view begins at `base`. */
    method ForwardPrefill(q: seq<Q>, idx: seq<X>, output: array<O>, base: int, starts: seq<int>,
                          numDecodes: int, numPrefills: int, chunkSize: int)
      returns (calls: seq<(int, int)>)
      requires ValidStarts(starts) && 0 <= numDecodes && 0 <= numPrefills && numDecodes + numPrefills == |starts| - 1
      requires chunkSize >= 1 && |q| == |idx| == Total(starts) - starts[numDecodes]
      requires 0 <= base && base + |q| <= output.Length
      modifies output
      ensures forall i :: 0 <= i < output.Length ==>
                output[i] == if base <= i < base + |q| then attention.row(q[i - base], idx[i - base])
                             else old(output[i])
      ensures numPrefills > 0 ==> calls != [] && calls[0].0 == 0 && calls[|calls| - 1].1 == |q|
      ensures forall k :: 0 < k < |calls| ==> calls[k - 1].1 == calls[k].0
      ensures |calls| == CeilDiv(numPrefills, chunkSize)
      ensures forall k :: 0 <= k < |calls| ==> CallIs(calls[k], k, starts, numDecodes, numPrefills, chunkSize)
    {
      var tokenBase := starts[numDecodes];
      var numChunks := (numPrefills + chunkSize - 1) / chunkSize;
      AllCalls(numPrefills, chunkSize);
      calls := [];
      ghost var done := 0;
      for c := 0 to numChunks
        invariant done == Before(c, chunkSize, numPrefills) && |calls| == c
        invariant forall k :: 0 <= k < |calls| ==> CallIs(calls[k], k, starts, numDecodes, numPrefills, chunkSize)
        invariant forall i :: 0 <= i < output.Length ==>
                    output[i] == if base <= i < base + (starts[numDecodes + done] - tokenBase)
                                 then attention.row(q[i - base], idx[i - base]) else old(output[i])
      {
        var call := ForwardChunk(q, idx, output, base, starts, numDecodes, numPrefills, chunkSize, c, numChunks);
        calls := calls + [call];
        done := Before(c + 1, chunkSize, numPrefills);
      }
      assert done == numPrefills;
      CallsFollow(calls, starts, numDecodes, numPrefills, chunkSize);
    }

    /** Decode and prefill together: every scheduled token's row is written from its own
        query and index row, and rows past the scheduled tokens are left alone. */
    method ForwardSparse(q: seq<Q>, decodeIdx: seq<X>, prefillIdx: seq<X>, output: array<O>, starts: seq<int>,
                         numDecodes: int, numPrefills: int, chunkSize: int)
      requires ValidStarts(starts) && 0 <= numDecodes && 0 <= numPrefills && numDecodes + numPrefills == |starts| - 1
      requires chunkSize >= 1 && Total(starts) <= |q| && Total(starts) <= output.Length
      requires |decodeIdx| == starts[numDecodes] && |prefillIdx| == Total(starts) - starts[numDecodes]
      modifies output
      ensures forall i :: 0 <= i < output.Length ==>
                output[i] == if i < starts[numDecodes] then attention.row(q[i], decodeIdx[i])
                             else if i < Total(starts) then attention.row(q[i], prefillIdx[i - starts[numDecodes]])
                             else old(output[i])
    {
      var n, total := starts[numDecodes], Total(starts);
      if numPrefills > 0 {
        var _ := ForwardPrefill(q[n..total], prefillIdx, output, n, starts, numDecodes, numPrefills, chunkSize);
      }
      if numDecodes > 0 {
        Call(q[..n], decodeIdx, output, 0);
      }
    }
  }

  lemma ChunkBounds(c: int, numChunks: int, chunkSize: int, numPrefills: int)
    requires 0 <= c < numChunks && chunkSize >= 1 && numChunks == CeilDiv(numPrefills, chunkSize)
    ensures 0 <= c * chunkSize == Before(c, chunkSize, numPrefills) < numPrefills
    ensures Before(c + 1, chunkSize, numPrefills) == Min(c * chunkSize + chunkSize, numPrefills)
  {
    CeilDivBounds(numPrefills, chunkSize);
    ProductMonotone(numChunks, chunkSize, c + 1, chunkSize);
    ProductMonotone(c, chunkSize, 0, 0);
    assert (c + 1) * chunkSize == c * chunkSize + chunkSize;
  }
}
