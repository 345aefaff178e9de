/** What sliding-window rows mean: the listed slots are exactly those of the positions the
    token may see, for plain, image and draft-block windows. */
module SwaTheorems {
  import opened Arith
  import opened Sums
  import opened Ragged
  import opened Launch
  import opened RowBuffer
  import opened PagedRows
  import opened ImageSpans
  import opened SwaRows

  /** Position `p` lies in the causal window of the token at `pos`. */
  predicate InWindow(size: int, pos: int, p: int) { 0 <= p && pos - size < p <= pos }

  /** Some image span holds both `pos` and `p`. */
  predicate SameImage(spans: seq<Span>, pos: int, p: int) {
    exists k :: 0 <= k < |spans| && Inside(spans[k], pos) && Inside(spans[k], p)
  }

  lemma CausalRange(b: SwaBatch, size: int, t: int, p: int)
    requires b.Valid() && 0 <= t < Total(b.starts) && size >= 1 && b.Live(t)
    ensures First(b, Causal(size), t) <= p < Stop(b, Causal(size), t) <==> InWindow(size, b.Pos(t), p)
    ensures Stop(b, Causal(size), t) - First(b, Causal(size), t) <= size
  {
    PositionInSequence(b, t);
  }

  /** A decode row lists exactly the slots of the token's causal window, and fits. */
  lemma DecodeRowIsTheWindow(b: SwaBatch, size: nat, t: int, p: int)
    requires size >= 1 && Covered(b, Causal(size), t, t + 1) && b.isValid[t] && b.Live(t)
    requires NonNegative(b.table[ReqOf(b.starts, t)]) && Distinct(b.table[ReqOf(b.starts, t)])
    requires Mapped(b.table[ReqOf(b.starts, t)], b.blockSize, p)
    ensures Slot(b.table[ReqOf(b.starts, t)], b.blockSize, p) in SwaRow(b, Causal(size), t, size)
            <==> InWindow(size, b.Pos(t), p)
    ensures 0 < SwaLen(b, Causal(size), t) <= size
  {
    var w := Causal(size);
    CausalRange(b, size, t, p);
    RangeIsProper(b, w, t);
    PagedRowMembers(b.table[ReqOf(b.starts, t)], b.blockSize, First(b, w, t), Stop(b, w, t), size, p);
  }

  /** Spans of one request as the model promises them: disjoint, at most `maxTokens` long,
      and with all their tokens already in the sequence. */
  ghost predicate GoodSpans(spans: seq<Span>, maxTokens: int, seqLen: int) {
    && Disjoint(spans)
    && forall k :: 0 <= k < |spans| ==>
         0 <= spans[k].first && spans[k].last < seqLen && spans[k].last - spans[k].first + 1 <= maxTokens
  }

  lemma ImageRange(b: SwaBatch, w: Window, spans: seq<Span>, maxTokens: int, t: int, p: int)
    requires b.Valid() && w.Image? && 0 <= t < Total(b.starts) && Fits(w, t, t + 1) && maxTokens >= 0 && b.Live(t)
    requires GoodSpans(spans, maxTokens, b.seqLens[ReqOf(b.starts, t)])
    requires (w.left[t], w.right[t]) == Visible(spans, b.Pos(t), maxTokens)
    ensures First(b, w, t) <= p < Stop(b, w, t) <==> InWindow(w.size, b.Pos(t), p) || SameImage(spans, b.Pos(t), p)
    ensures Stop(b, w, t) - First(b, w, t) <= w.size + maxTokens
    ensures Stop(b, w, t) <= b.seqLens[ReqOf(b.starts, t)]
  {
    var pos := b.Pos(t);
    PositionInSequence(b, t);
    if k :| 0 <= k < |spans| && Inside(spans[k], pos) {
      VisibleReachesSpanEnds(spans, pos, maxTokens, k);
      OwnImageIsUnique(spans, pos, p, k);
    } else {
      NothingVisibleOutside(spans, pos, maxTokens);
    }
  }

  lemma OwnImageIsUnique(spans: seq<Span>, pos: int, p: int, k: int)
    requires Disjoint(spans) && 0 <= k < |spans| && Inside(spans[k], pos)
    ensures SameImage(spans, pos, p) <==> Inside(spans[k], p)
  {
    if j :| 0 <= j < |spans| && Inside(spans[j], pos) && Inside(spans[j], p) {
      assert j == k;
    }
  }

  /** Main result on images: a prefill row lists exactly the slots of the causal window
      united with the token's own image, and it always fits in the widened row. */
  lemma PrefillRowIsWindowPlusImage(b: SwaBatch, w: Window, ranges: map<int, seq<Span>>, maxTokens: nat, t: int, p: int)
    requires Covered(b, w, t, t + 1) && b.isValid[t] && Carries(w, b, ranges, maxTokens, t)
    requires PrefillReady(b, ranges, maxTokens, t, t + 1)
    requires NonNegative(b.table[ReqOf(b.starts, t)]) && Distinct(b.table[ReqOf(b.starts, t)])
    requires Mapped(b.table[ReqOf(b.starts, t)], b.blockSize, p)
    ensures Slot(b.table[ReqOf(b.starts, t)], b.blockSize, p) in SwaRow(b, w, t, w.size + maxTokens) <==>
            || InWindow(w.size, b.Pos(t), p)
            || (ReqOf(b.starts, t) in ranges && SameImage(ranges[ReqOf(b.starts, t)], b.Pos(t), p))
    ensures 0 < SwaLen(b, w, t) <= w.size + maxTokens
  {
    var r := ReqOf(b.starts, t);
    if w.Image? {
      ImageRange(b, w, SpansOf(ranges, r), maxTokens, t, p);
    } else {
      CausalRange(b, w.size, t, p);
    }
    RangeIsProper(b, w, t);
    PagedRowMembers(b.table[r], b.blockSize, First(b, w, t), Stop(b, w, t), w.size + maxTokens, p);
  }

  /** A draft block's row lists the trailing context window and the whole block, future
      tokens included. */
  lemma DraftRowIsWindowPlusBlock(b: SwaBatch, size: int, width: nat, t: int, p: int)
    requires size >= 1 && Covered(b, NonCausal(size), t, t + 1) && b.isValid[t] && b.Live(t)
    requires NonNegative(b.table[ReqOf(b.starts, t)]) && Distinct(b.table[ReqOf(b.starts, t)])
    requires Mapped(b.table[ReqOf(b.starts, t)], b.blockSize, p)
    requires var r := ReqOf(b.starts, t); size + b.starts[r + 1] - b.starts[r] <= width
    ensures var r := ReqOf(b.starts, t);
            var prefix := b.seqLens[r] - (b.starts[r + 1] - b.starts[r]);
            Slot(b.table[r], b.blockSize, p) in SwaRow(b, NonCausal(size), t, width)
            <==> (prefix - size <= p < prefix) || (prefix <= p < b.seqLens[r])
  {
    var w := NonCausal(size);
    RangeIsProper(b, w, t);
    PagedRowMembers(b.table[ReqOf(b.starts, t)], b.blockSize, First(b, w, t), Stop(b, w, t), width, p);
  }

  /** Rows of requests with disjoint blocks have no slot in common. */
  lemma RowsOfDisjointRequests(b: SwaBatch, w: Window, t: int, u: int, width: nat, slot: int)
    requires Covered(b, w, t, t + 1) && Covered(b, w, u, u + 1) && b.isValid[t] && b.isValid[u]
    requires forall x :: x in b.table[ReqOf(b.starts, t)] ==> x !in b.table[ReqOf(b.starts, u)]
    requires slot >= 0 && slot in SwaRow(b, w, t, width)
    ensures slot !in SwaRow(b, w, u, width)
  {
    var o := ListedSlot(b, w, t, width, slot);
    if slot in SwaRow(b, w, u, width) {
      var o' := ListedSlot(b, w, u, width, slot);
      SlotsOfDisjointTables(b.table[ReqOf(b.starts, t)], b.table[ReqOf(b.starts, u)], b.blockSize, o, o');
    }
  }

  lemma ListedSlot(b: SwaBatch, w: Window, t: int, width: nat, slot: int) returns (p: int)
    requires Covered(b, w, t, t + 1) && b.isValid[t] && slot >= 0 && slot in SwaRow(b, w, t, width)
    ensures Mapped(b.table[ReqOf(b.starts, t)], b.blockSize, p)
    ensures Slot(b.table[ReqOf(b.starts, t)], b.blockSize, p) == slot
  {
    var table := b.table[ReqOf(b.starts, t)];
    var o :| 0 <= o < width && SwaRow(b, w, t, width)[o] == slot;
    p := First(b, w, t) + o;
    assert Entry(table, b.blockSize, Stop(b, w, t), p) == slot;
    MappedBelow(table, b.blockSize, Stop(b, w, t), p);
  }

  lemma {:induction false} VisibleNonNegative(spans: seq<Span>, pos: int, maxTokens: int)
    requires maxTokens >= 1
    ensures Visible(spans, pos, maxTokens).0 >= 0 && Visible(spans, pos, maxTokens).1 >= 0
  {
    if spans != [] {
      VisibleNonNegative(spans[..|spans| - 1], pos, maxTokens);
    }
  }

  /** What a prefill step has to supply. */
  ghost predicate PrefillReady(b: SwaBatch, ranges: map<int, seq<Span>>, maxTokens: int, lo: int, hi: int) {
    && b.Valid() && 0 <= lo <= hi <= Total(b.starts) && hi <= |b.isValid|
    && forall t :: lo <= t < hi ==>
         var r := ReqOf(b.starts, t);
         && b.Live(t) && GoodSpans(SpansOf(ranges, r), maxTokens, b.seqLens[r])
         && MappedTo(b.table[r], b.blockSize, b.seqLens[r])
  }

  /** The window carries the visibility counts of the prefill tokens; without images it
      is the plain causal window. */
  ghost predicate Carries(w: Window, b: SwaBatch, ranges: map<int, seq<Span>>, maxTokens: int, t: int)
    requires b.Valid() && 0 <= t < Total(b.starts)
  {
    var spans := SpansOf(ranges, ReqOf(b.starts, t));
    if w.Image? then t < |w.left| && t < |w.right| && (w.left[t], w.right[t]) == Visible(spans, b.Pos(t), maxTokens)
    else w.Causal? && spans == []
  }

  lemma WindowIsCovered(b: SwaBatch, w: Window, ranges: map<int, seq<Span>>, maxTokens: int, lo: int, hi: int)
    requires PrefillReady(b, ranges, maxTokens, lo, hi) && w.size >= 1
    requires w.Image? ==> |w.left| >= hi && |w.right| >= hi && maxTokens >= 1
    requires forall t :: lo <= t < hi ==> Carries(w, b, ranges, maxTokens, t)
    requires w.Image? || w.Causal?
    ensures Covered(b, w, lo, hi)
  {
    forall t | lo <= t < hi
      ensures w.Image? ==> 0 <= w.left[t] && 0 <= w.right[t]
    {
      assert Carries(w, b, ranges, maxTokens, t);
      if w.Image? {
        VisibleNonNegative(SpansOf(ranges, ReqOf(b.starts, t)), b.Pos(t), maxTokens);
      }
    }
    forall t | lo <= t < hi
      ensures MappedTo(b.table[ReqOf(b.starts, t)], b.blockSize, Stop(b, w, t))
    {
      assert Carries(w, b, ranges, maxTokens, t);
      PositionInSequence(b, t);
      var r := ReqOf(b.starts, t);
      if w.Image? {
        ImageRange(b, w, SpansOf(ranges, r), maxTokens, t, 0);
      }
      DivMonotone(Stop(b, w, t) - 1, b.seqLens[r] - 1, b.blockSize);
    }
  }

  /** The prefill rows of a build: spans uploaded, visibility counted, rows stored, with
      any order of either launch and any previous contents of the buffers. */
  method BuildPrefillRows(b: SwaBatch, ranges: map<int, seq<Span>>, maxTokens: nat, window: nat,
                          bufs: SpanBuffers, out: Rows, lo: nat, n: nat, order1: seq<int>, order2: seq<int>)
    returns (w: Window)
    requires bufs.Valid() && out.Valid()
    requires {out.data, out.lens} !! {bufs.indptr, bufs.firsts, bufs.lasts, bufs.left, bufs.right}
    requires PrefillReady(b, ranges, maxTokens, lo, lo + n) && window >= 1
    requires Total(b.starts) <= bufs.left.Length && |b.starts| <= bufs.indptr.Length
    requires |AllSpans(ranges, |b.starts| - 1)| <= bufs.firsts.Length
    requires maxTokens == 0 ==> forall r :: 0 <= r < |b.starts| - 1 ==> SpansOf(ranges, r) == []
    requires n <= out.capacity && out.stride == window + maxTokens && IsOrder(order1, n) && IsOrder(order2, n)
    modifies bufs.indptr, bufs.firsts, bufs.lasts, bufs.left, bufs.right, out.data, out.lens
    ensures w.size == window && forall t :: lo <= t < lo + n ==> Carries(w, b, ranges, maxTokens, t)
    ensures forall pid :: 0 <= pid < n ==> Stored(b, w, out, pid, lo, out.stride)
    ensures PaddingBlank(b, out, n, lo, out.stride)
  {
    var hasImage := maxTokens > 0 && exists r :: 0 <= r < |b.starts| - 1 && SpansOf(ranges, r) != [];
    w := Causal(window);
    if hasImage {
      bufs.BuildVisibility(ranges, |b.starts| - 1, b.starts, b.seqLens, maxTokens, lo, n, order1);
      w := Image(window, bufs.left[..lo + n], bufs.right[..lo + n]);
    }
    WindowIsCovered(b, w, ranges, maxTokens, lo, lo + n);
    LaunchSwa(b, w, out, n, lo, out.stride, order2);
  }
}
