/** Decode rows of the sliding window: built afresh, causal or for a non-causal draft block,
    and refreshed in place between draft steps. */
module SwaDraft {
  import opened Sums
  import opened Ragged
  import opened Launch
  import opened RowBuffer
  import opened PagedRows
  import opened SwaRows

  /** The decode rows of a fresh build: causal rows are as wide as the window, rows of a
      draft block are wider. */
  method BuildDecodeRows(b: SwaBatch, w: Window, out: Rows, n: int, order: seq<int>)
    requires out.Valid() && 0 <= n <= out.capacity && IsOrder(order, n) && !w.Image?
    requires Covered(b, w, 0, n) && (w.Causal? ==> w.size == out.stride)
    modifies out.data, out.lens
    ensures forall t :: 0 <= t < n ==> Stored(b, w, out, t, 0, out.stride)
    ensures PaddingBlank(b, out, n, 0, out.stride)
    ensures forall q :: n <= q < out.capacity ==> out.lens[q] == if n > 0 then 0 else old(out.lens[q])
  {
    if n > 0 {
      forall i | n <= i < out.capacity { out.lens[i] := 0; }
      LaunchSwa(b, w, out, n, 0, out.stride, order);
    }
  }

  /** The in-place refresh of draft rows: the kernel's window is the row width. */
  method UpdateDraftRows(b: SwaBatch, out: Rows, n: int, order: seq<int>)
    requires out.Valid() && 0 <= n <= out.capacity && IsOrder(order, n)
    requires Covered(b, Causal(out.stride), 0, n)
    modifies out.data, out.lens
    ensures forall t :: 0 <= t < n ==> Stored(b, Causal(out.stride), out, t, 0, out.stride)
    ensures PaddingBlank(b, out, n, 0, out.stride)
  {
    if n > 0 {
      LaunchSwa(b, Causal(out.stride), out, n, 0, out.stride, order);
    }
  }

  /** Row and length of token `t` are the same in both buffers. */
  ghost predicate SameRow(x: Rows, y: Rows, t: int)
    reads x.data, x.lens, y.data, y.lens
    requires x.Valid() && y.Valid() && 0 <= t < x.capacity && t < y.capacity
  {
    x.Row(t) == y.Row(t) && x.lens[t] == y.lens[t]
  }

  lemma StoredRow(b: SwaBatch, w: Window, out: Rows, t: int)
    requires out.Valid() && 0 <= t < out.capacity && Stored(b, w, out, t, 0, out.stride)
    ensures Covered(b, w, t, t + 1)
    ensures out.Row(t) == SwaRow(b, w, t, out.stride) && out.lens[t] == SwaLen(b, w, t)
  {
    assert out.Row(t)[..out.stride] == out.Row(t);
  }

  /** A causal draft update on new lengths leaves the rows and lengths a fresh build on
      those lengths would, whatever either buffer held. */
  method DraftUpdateEqualsFreshBuild(b: SwaBatch, updated: Rows, rebuilt: Rows, n: int,
                                     order1: seq<int>, order2: seq<int>)
    requires updated.Valid() && rebuilt.Valid() && updated.stride == rebuilt.stride
    requires {updated.data, updated.lens} !! {rebuilt.data, rebuilt.lens}
    requires 0 <= n <= updated.capacity && n <= rebuilt.capacity && IsOrder(order1, n) && IsOrder(order2, n)
    requires Covered(b, Causal(updated.stride), 0, n)
    modifies updated.data, updated.lens, rebuilt.data, rebuilt.lens
    ensures forall t :: 0 <= t < n ==> SameRow(updated, rebuilt, t)
  {
    BuildDecodeRows(b, Causal(rebuilt.stride), rebuilt, n, order2);
    UpdateDraftRows(b, updated, n, order1);
    forall t | 0 <= t < n
      ensures SameRow(updated, rebuilt, t)
    {
      StoredRow(b, Causal(updated.stride), updated, t);
      StoredRow(b, Causal(rebuilt.stride), rebuilt, t);
    }
  }

  /** Token `t` is its block's last, and taking the row width for the window changes nothing:
      the whole context is inside the window, or the row has no spare width. */
  predicate RefreshKeeps(b: SwaBatch, size: int, width: int, t: int)
    requires b.Valid() && 0 <= t < Total(b.starts)
  {
    var r := ReqOf(b.starts, t);
    var len := b.starts[r + 1] - b.starts[r];
    t == b.starts[r + 1] - 1 && (b.seqLens[r] - len <= size || width == size + len)
  }

  lemma RefreshRange(b: SwaBatch, size: int, width: int, t: int)
    requires b.Valid() && 0 <= t < Total(b.starts) && b.Live(t) && 1 <= size
    requires var r := ReqOf(b.starts, t); size + b.starts[r + 1] - b.starts[r] <= width
    ensures RefreshKeeps(b, size, width, t) <==>
            && First(b, Causal(width), t) == First(b, NonCausal(size), t)
            && Stop(b, Causal(width), t) == Stop(b, NonCausal(size), t)
  {
  }

  /** Two rows of one token with equal contents and lengths have equal ranges. */
  lemma EqualRowsEqualRanges(b: SwaBatch, w1: Window, w2: Window, t: int, width: nat)
    requires Covered(b, w1, t, t + 1) && Covered(b, w2, t, t + 1) && b.isValid[t] && b.Live(t) && width >= 1
    requires NonNegative(b.table[ReqOf(b.starts, t)]) && Distinct(b.table[ReqOf(b.starts, t)])
    ensures SwaRow(b, w1, t, width) == SwaRow(b, w2, t, width) && SwaLen(b, w1, t) == SwaLen(b, w2, t) <==>
            First(b, w1, t) == First(b, w2, t) && Stop(b, w1, t) == Stop(b, w2, t)
  {
    var table, bs := b.table[ReqOf(b.starts, t)], b.blockSize;
    RangeIsProper(b, w1, t);
    RangeIsProper(b, w2, t);
    RowEntry(table, bs, First(b, w1, t), Stop(b, w1, t), width, 0);
    RowEntry(table, bs, First(b, w2, t), Stop(b, w2, t), width, 0);
    assert IsSlot(table, bs, First(b, w1, t), SwaRow(b, w1, t, width)[0]);
    assert IsSlot(table, bs, First(b, w2, t), SwaRow(b, w2, t, width)[0]);
    SlotInjective(table, bs, First(b, w1, t), First(b, w2, t));
  }

  /** On the wider rows of a draft block the refresh takes the row width for the window.  It
      leaves a token the row and length of a fresh build exactly when the token is its
      block's last and `RefreshKeeps` holds of its context or its row. */
  lemma RefreshOfWideRows(b: SwaBatch, size: int, refreshed: Rows, rebuilt: Rows, t: int)
    requires refreshed.Valid() && rebuilt.Valid() && refreshed.stride == rebuilt.stride
    requires 0 <= t < refreshed.capacity && t < rebuilt.capacity
    requires Stored(b, Causal(refreshed.stride), refreshed, t, 0, refreshed.stride)
    requires Stored(b, NonCausal(size), rebuilt, t, 0, rebuilt.stride)
    requires b.isValid[t] && b.Live(t)
    requires NonNegative(b.table[ReqOf(b.starts, t)]) && Distinct(b.table[ReqOf(b.starts, t)])
    requires var r := ReqOf(b.starts, t); size + b.starts[r + 1] - b.starts[r] <= rebuilt.stride
    ensures SameRow(refreshed, rebuilt, t) <==> RefreshKeeps(b, size, rebuilt.stride, t)
  {
    var width := rebuilt.stride;
    StoredRow(b, Causal(width), refreshed, t);
    StoredRow(b, NonCausal(size), rebuilt, t);
    EqualRowsEqualRanges(b, Causal(width), NonCausal(size), t, width);
    RefreshRange(b, size, width, t);
  }

  /** A draft block of two tokens: refreshed, its first token loses sight of the second. */
  lemma RefreshHidesFutureToken()
    ensures var b := SwaBatch([0, 2], [2], [true, true], [[5]], 64);
            && Covered(b, Causal(6), 0, 2) && Covered(b, NonCausal(4), 0, 2)
            && SwaRow(b, Causal(6), 0, 6)[1] == -1 && SwaLen(b, Causal(6), 0) == 1
            && SwaRow(b, NonCausal(4), 0, 6)[1] == 321 && SwaLen(b, NonCausal(4), 0) == 2
            && !RefreshKeeps(b, 4, 6, 0)
  {
    var b := SwaBatch([0, 2], [2], [true, true], [[5]], 64);
    ReqOfUnique(b.starts, 0, 0);
    ReqOfUnique(b.starts, 1, 0);
    assert PagedRow([5], 64, 0, 1, 6)[1] == Entry([5], 64, 1, 1);
    assert PagedRow([5], 64, 0, 2, 6)[1] == Entry([5], 64, 2, 1);
  }
}
