/** Sliding-window index rows: one program per token stores its row of KV slots and its
    length, for the causal window, the causal window widened by an image span, and the
    non-causal draft block. */
module SwaRows {
  import opened Arith
  import opened Ragged
  import opened Launch
  import opened RowBuffer
  import opened PagedRows

  datatype SwaBatch = SwaBatch(starts: seq<int>, seqLens: seq<int>, isValid: seq<bool>,
                               table: seq<seq<int>>, blockSize: int)
  {
    predicate Valid() {
      && ValidStarts(starts) && |seqLens| >= |starts| - 1 && |table| >= |starts| - 1
      && forall t :: 0 <= t < |isValid| && isValid[t] ==> t < Total(starts)
    }

    /** Token `t`'s request is at least as long as the tokens it runs. */
    predicate Live(t: int)
      requires Valid() && 0 <= t < Total(starts)
    {
      var r := ReqOf(starts, t);
      starts[r + 1] - starts[r] <= seqLens[r]
    }

    function Pos(t: int): int
      requires Valid() && 0 <= t < Total(starts)
    {
      Position(starts, seqLens, t)
    }
  }

  /** Which positions a token may see. */
  datatype Window =
    | Causal(size: int)
    | Image(size: int, left: seq<int>, right: seq<int>)
    | NonCausal(size: int)

  predicate Fits(w: Window, lo: int, hi: int) {
    && w.size >= 1
    && (w.Image? ==> |w.left| >= hi && |w.right| >= hi)
    && (w.Image? ==> forall t :: 0 <= lo <= t < hi ==> 0 <= w.left[t] && 0 <= w.right[t])
  }

  /** First and last-plus-one position of valid token `t`'s row, as the kernels compute it. */
  function First(b: SwaBatch, w: Window, t: int): (p: int)
    requires b.Valid() && 0 <= t < Total(b.starts) && Fits(w, t, t + 1)
    ensures p >= 0
  {
    var r := ReqOf(b.starts, t);
    if w.NonCausal? then Max(b.seqLens[r] - (b.starts[r + 1] - b.starts[r]) - w.size, 0)
    else
      var left := if w.Image? then w.left[t] else 0;
      var leftAdd := Max(left - (w.size - 1), 0);
      Max(b.Pos(t) - (w.size - 1) - leftAdd, 0)
  }

  function Stop(b: SwaBatch, w: Window, t: int): int
    requires b.Valid() && 0 <= t < Total(b.starts) && Fits(w, t, t + 1)
  {
    if w.NonCausal? then b.seqLens[ReqOf(b.starts, t)]
    else b.Pos(t) + (if w.Image? then w.right[t] else 0) + 1
  }

  lemma PositionInSequence(b: SwaBatch, t: int)
    requires b.Valid() && 0 <= t < Total(b.starts) && b.Live(t)
    ensures 0 <= b.Pos(t) < b.seqLens[ReqOf(b.starts, t)]
  {
  }

  lemma RangeIsProper(b: SwaBatch, w: Window, t: int)
    requires b.Valid() && 0 <= t < Total(b.starts) && Fits(w, t, t + 1) && b.Live(t)
    ensures 0 <= First(b, w, t) <= b.Pos(t) < Stop(b, w, t)
  {
    PositionInSequence(b, t);
  }

  /** Every token of the launch can look its positions up. */
  ghost predicate Covered(b: SwaBatch, w: Window, lo: int, hi: int) {
    && b.Valid() && 0 <= lo <= hi <= |b.isValid| && Fits(w, lo, hi)
    && forall t {:trigger b.isValid[t]} :: lo <= t < hi && b.isValid[t] ==>
         MappedTo(b.table[ReqOf(b.starts, t)], b.blockSize, Stop(b, w, t))
  }

  /** Token `t`'s row: its positions' slots and then -1, or only -1 for a padding token. */
  function SwaRow(b: SwaBatch, w: Window, t: int, width: nat): (r: seq<int>)
    requires Covered(b, w, t, t + 1)
    ensures |r| == width
  {
    if b.isValid[t] then PagedRow(b.table[ReqOf(b.starts, t)], b.blockSize, First(b, w, t), Stop(b, w, t), width)
    else Repeat(-1, width)
  }

  function SwaLen(b: SwaBatch, w: Window, t: int): int
    requires Covered(b, w, t, t + 1)
  {
    if b.isValid[t] then Stop(b, w, t) - First(b, w, t) else 0
  }

  /** Row `pid` of the buffer is the row of token `pid + tokenOffset`. */
  ghost predicate Stored(b: SwaBatch, w: Window, out: Rows, pid: int, tokenOffset: int, width: nat)
    reads out.data, out.lens
  {
    && out.Valid() && 0 <= pid < out.capacity && width <= out.stride
    && Covered(b, w, pid + tokenOffset, pid + tokenOffset + 1)
    && out.Row(pid)[..width] == SwaRow(b, w, pid + tokenOffset, width)
    && out.lens[pid] == SwaLen(b, w, pid + tokenOffset)
  }

  /** A row that lists nothing: length 0, and only -1 up to `width`. */
  ghost predicate Blank(out: Rows, pid: int, width: nat)
    reads out.data, out.lens
  {
    && out.Valid() && 0 <= pid < out.capacity && width <= out.stride
    && out.lens[pid] == 0 && forall o :: 0 <= o < width ==> out.Row(pid)[o] == -1
  }

  /** The row of a padding token is blank. */
  lemma PaddingIsBlank(b: SwaBatch, w: Window, out: Rows, pid: int, tokenOffset: int, width: nat)
    requires Stored(b, w, out, pid, tokenOffset, width) && !b.isValid[pid + tokenOffset]
    ensures Blank(out, pid, width)
  {
    forall o | 0 <= o < width
      ensures out.Row(pid)[o] == -1
    {
      assert out.Row(pid)[..width][o] == Repeat(-1, width)[o];
    }
  }

  /** Of the rows `[0, n)` of a launch those of padding tokens are blank. */
  ghost predicate PaddingBlank(b: SwaBatch, out: Rows, n: int, tokenOffset: int, width: nat)
    reads out.data, out.lens
  {
    && 0 <= tokenOffset && tokenOffset + n <= |b.isValid|
    && forall pid :: 0 <= pid < n ==> b.isValid[pid + tokenOffset] || Blank(out, pid, width)
  }

  lemma LaunchBlanksPadding(b: SwaBatch, w: Window, out: Rows, n: int, tokenOffset: int, width: nat)
    requires 0 <= tokenOffset && tokenOffset + n <= |b.isValid|
    requires forall pid :: 0 <= pid < n ==> Stored(b, w, out, pid, tokenOffset, width)
    ensures PaddingBlank(b, out, n, tokenOffset, width)
  {
    forall pid | 0 <= pid < n
      ensures b.isValid[pid + tokenOffset] || Blank(out, pid, width)
    {
      if !b.isValid[pid + tokenOffset] {
        PaddingIsBlank(b, w, out, pid, tokenOffset, width);
      }
    }
  }

  /** Entry `o` of a valid token's row: the slot of its position, block and place written
      out, as long as `o` is below the stored length, and -1 from there on. */
  lemma StoredEntry(b: SwaBatch, w: Window, out: Rows, pid: int, t: int, width: nat, o: int)
    requires Stored(b, w, out, pid, t - pid, width) && b.isValid[t] && 0 <= o < width
    ensures out.lens[pid] == Stop(b, w, t) - First(b, w, t)
    ensures o < out.lens[pid] ==>
              var p, table := First(b, w, t) + o, b.table[ReqOf(b.starts, t)];
              && b.blockSize > 0 && 0 <= p / b.blockSize < |table|
              && out.Row(pid)[o] == table[p / b.blockSize] * b.blockSize + p % b.blockSize
    ensures out.lens[pid] <= o ==> out.Row(pid)[o] == -1
  {
    var table, p := b.table[ReqOf(b.starts, t)], First(b, w, t) + o;
    assert out.Row(pid)[..width][o] == Entry(table, b.blockSize, Stop(b, w, t), p);
    if o < out.lens[pid] {
      MappedBelow(table, b.blockSize, Stop(b, w, t), p);
      BlockOf(p, b.blockSize);
    }
  }

  /** The range of token `j` of request `r` in numbers. */
  lemma RangeOf(b: SwaBatch, w: Window, t: int, r: int, j: int, pos: int)
    requires b.Valid() && 0 <= r < |b.starts| - 1 && 0 <= j < b.starts[r + 1] - b.starts[r] && t == b.starts[r] + j
    requires Fits(w, t, t + 1) && pos == b.seqLens[r] - (b.starts[r + 1] - b.starts[r]) + j && pos >= 0
    ensures 0 <= t < Total(b.starts) && ReqOf(b.starts, t) == r
    ensures w.Causal? ==> Stop(b, w, t) == pos + 1 && Stop(b, w, t) - First(b, w, t) == Min(pos + 1, w.size)
    ensures w.NonCausal? ==> Stop(b, w, t) == b.seqLens[r] && First(b, w, t) == Max(pos - j - w.size, 0)
  {
    PositionInRequest(b.starts, b.seqLens, r, j);
  }

  /** Program `pid` of a launch over the tokens from `tokenOffset` on. */
  method SwaProgram(b: SwaBatch, w: Window, out: Rows, pid: int, tokenOffset: int, width: nat)
    requires out.Valid() && 0 <= pid < out.capacity && width <= out.stride
    requires 0 <= tokenOffset && Covered(b, w, pid + tokenOffset, pid + tokenOffset + 1)
    modifies out.data, out.lens
    ensures Stored(b, w, out, pid, tokenOffset, width)
    ensures forall q :: q != pid && old(Stored(b, w, out, q, tokenOffset, width)) ==>
              Stored(b, w, out, q, tokenOffset, width)
    ensures forall q :: 0 <= q < out.capacity && q != pid ==>
              out.Row(q) == old(out.Row(q)) && out.lens[q] == old(out.lens[q])
  {
    var t := pid + tokenOffset;
    if !b.isValid[t] {
      out.lens[pid] := 0;
      out.StoreRow(pid, width, _ => -1);
      return;
    }
    var r := ReqOf(b.starts, t);
    var table, bs := b.table[r], b.blockSize;
    var queryLen := b.starts[r + 1] - b.starts[r];
    var prefixLen := b.seqLens[r] - queryLen;
    var start, end := 0, 0;
    if w.NonCausal? {
      start, end := Max(prefixLen - w.size, 0), b.seqLens[r];
    } else {
      var pos := prefixLen + t - b.starts[r];
      var left, right := 0, 0;
      if w.Image? {
        left, right := w.left[t], w.right[t];
      }
      var leftAdd := Max(left - (w.size - 1), 0);
      start, end := Max(pos - (w.size - 1) - leftAdd, 0), pos + right + 1;
    }
    assert start == First(b, w, t) && end == Stop(b, w, t);
    assert MappedTo(table, bs, end);
    out.lens[pid] := end - start;
    out.StoreRow(pid, width, o requires 0 <= o => Entry(table, bs, end, start + o));
  }

  /** The launch, in any order: whatever the buffer held, row `pid` ends up as its token's
      row, and rows past the launch keep their contents. */
  method LaunchSwa(b: SwaBatch, w: Window, out: Rows, n: int, tokenOffset: int, width: nat, order: seq<int>)
    requires out.Valid() && 0 <= n <= out.capacity && width <= out.stride && IsOrder(order, n)
    requires 0 <= tokenOffset && Covered(b, w, tokenOffset, tokenOffset + n)
    modifies out.data, out.lens
    ensures forall pid :: 0 <= pid < n ==> Stored(b, w, out, pid, tokenOffset, width)
    ensures PaddingBlank(b, out, n, tokenOffset, width)
    ensures forall q :: n <= q < out.capacity ==> out.Row(q) == old(out.Row(q)) && out.lens[q] == old(out.lens[q])
  {
    for k := 0 to |order|
      invariant forall pid :: 0 <= pid < n && Runs(order[..k], pid) ==> Stored(b, w, out, pid, tokenOffset, width)
      invariant forall q :: n <= q < out.capacity ==> out.Row(q) == old(out.Row(q)) && out.lens[q] == old(out.lens[q])
    {
      SwaProgram(b, w, out, order[k], tokenOffset, width);
      RunsOneMore(order, k);
    }
    assert order[..|order|] == order;
    LaunchBlanksPadding(b, w, out, n, tokenOffset, width);
  }
}
