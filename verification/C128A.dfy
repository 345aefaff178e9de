/** C128A metadata: every token attends all compressed keys completed by its position, so
    its index row is a prefix of its request's compressed slots (decode) or of the local
    indices (prefill), in preallocated buffers of the largest possible width. */
module C128A {
  import opened Arith
  import opened PowersOfTwo
  import opened Launch
  import opened RowBuffer
  import opened PagedRows

  const RATIO: int := 128
  const ALIGNMENT: int := 128

  // Widths.

  lemma SmallPowers()
    ensures Pow2(6) == 64 && Pow2(7) == ALIGNMENT
  {
    assert Pow2(2) == 4 && Pow2(3) == 8;
    assert Pow2(4) == 16 && Pow2(5) == 32;
  }

  lemma {:induction false} LargePower(k: nat)
    ensures Pow2(k + 7) == Pow2(k) * ALIGNMENT
  {
    if k == 0 {
      SmallPowers();
    } else {
      LargePower(k - 1);
      assert Pow2(k + 7) == 2 * Pow2(k - 1 + 7);
    }
  }

  lemma Pow2Aligned(k: nat)
    ensures if k < 7 then Pow2(k) < ALIGNMENT else Pow2(k) % ALIGNMENT == 0 && Pow2(k) >= ALIGNMENT
  {
    if k < 7 {
      SmallPowers();
      Pow2Monotone(k, 6);
    } else {
      LargePower(k - 7);
      DivModUnique(Pow2(k), ALIGNMENT, Pow2(k - 7), 0);
    }
  }

  /** The buffers' row width. */
  function MaxCompressed(maxModelLen: int): int {
    CeilDiv(CeilDiv(maxModelLen, RATIO), ALIGNMENT) * ALIGNMENT
  }

  /** The width one step stores and scans. */
  function ActiveWidth(maxSeqLen: int, maxModelLen: int): int {
    Min(Max(NextPow2(Max(maxSeqLen / RATIO, 1)), ALIGNMENT), MaxCompressed(maxModelLen))
  }

  /** Both runtime checks on the width hold for every sequence the model admits, and the
      width is a positive part of the buffer row. */
  lemma WidthChecksHold(maxSeqLen: int, maxModelLen: int)
    requires 0 <= maxSeqLen <= maxModelLen && 1 <= maxModelLen
    ensures var w := ActiveWidth(maxSeqLen, maxModelLen);
            maxSeqLen / RATIO <= w && w % ALIGNMENT == 0 && 0 < w <= MaxCompressed(maxModelLen)
  {
    var n := Max(maxSeqLen / RATIO, 1);
    NextPow2IsLeast(n, 0);
    Pow2Aligned(BitLength(n - 1));
    CeilDivBounds(maxModelLen, RATIO);
    CeilDivBounds(CeilDiv(maxModelLen, RATIO), ALIGNMENT);
    DivMonotone(maxSeqLen, maxModelLen, RATIO);
    DivModUnique(MaxCompressed(maxModelLen), ALIGNMENT, CeilDiv(CeilDiv(maxModelLen, RATIO), ALIGNMENT), 0);
  }

  /** The buffer row is the least aligned width for the longest sequence, and a step's width
      is at most twice what its longest sequence needs, or the alignment. */
  lemma WidthsAreTight(maxSeqLen: int, maxModelLen: int)
    requires 0 <= maxSeqLen <= maxModelLen && 1 <= maxModelLen
    ensures CeilDiv(maxModelLen, 128) <= MaxCompressed(maxModelLen) < CeilDiv(maxModelLen, 128) + 128
    ensures ActiveWidth(maxSeqLen, maxModelLen) <= Max(128, 2 * (maxSeqLen / 128))
  {
    var n := Max(maxSeqLen / RATIO, 1);
    CeilDivBounds(CeilDiv(maxModelLen, RATIO), ALIGNMENT);
    NextPow2Tight(n);
  }

  lemma NextPow2Tight(n: int)
    requires n >= 1
    ensures NextPow2(n) <= Max(1, 2 * (n - 1))
  {
    BitLengthBounds(n - 1);
    if n > 1 {
      var k := BitLength(n - 1);
      assert Pow2(k) == 2 * Pow2(k - 1);
    }
  }

  // One step.

  datatype Step = Step(positions: seq<int>, numDecode: int, tokenToReq: seq<int>, table: seq<seq<int>>,
                       blockSize: int, slotMapping: seq<int>, maxSeqLen: int)
  {
    predicate Valid(maxModelLen: int) {
      && 0 <= numDecode <= |positions| && |tokenToReq| >= numDecode && |slotMapping| >= |positions|
      && 0 <= maxSeqLen <= maxModelLen && 1 <= maxModelLen
      && (forall t :: 0 <= t < |positions| ==> 0 <= positions[t])
      && (forall t :: 0 <= t < |positions| && slotMapping[t] >= 0 ==> positions[t] < maxSeqLen)
      && forall t {:trigger tokenToReq[t]} :: 0 <= t < numDecode ==>
           0 <= tokenToReq[t] < |table| && MappedTo(table[tokenToReq[t]], blockSize, Clipped(t, maxModelLen))
    }

    /** Compressed keys completed by token `t`, and the kernel's clip to the step's width. */
    function Keys(t: int): int
      requires 0 <= t < |positions|
    {
      (positions[t] + 1) / RATIO
    }

    function Clipped(t: int, maxModelLen: int): int
      requires 0 <= t < |positions|
    {
      Min(Keys(t), ActiveWidth(maxSeqLen, maxModelLen))
    }

    /** The slots decode token `t` attends; a padding token attends none. */
    function SlotList(t: int, maxModelLen: int): seq<int>
      requires Valid(maxModelLen) && 0 <= t < numDecode
    {
      ClipLosesNothing(this, maxModelLen, t);
      if slotMapping[t] >= 0 then
        assert MappedTo(table[tokenToReq[t]], blockSize, Keys(t));
        PagedRow(table[tokenToReq[t]], blockSize, 0, Keys(t), Keys(t))
      else []
    }
  }

  /** Clipping to the step's width never loses a key of a live token. */
  lemma ClipLosesNothing(s: Step, maxModelLen: int, t: int)
    requires s.Valid(maxModelLen) && 0 <= t < |s.positions|
    ensures 0 <= s.Clipped(t, maxModelLen) <= ActiveWidth(s.maxSeqLen, maxModelLen)
    ensures 0 <= s.Keys(t)
    ensures s.slotMapping[t] >= 0 ==> s.Clipped(t, maxModelLen) == s.Keys(t)
  {
    WidthChecksHold(s.maxSeqLen, maxModelLen);
    DivMonotone(0, s.positions[t] + 1, RATIO);
    if s.slotMapping[t] >= 0 {
      DivMonotone(s.positions[t] + 1, s.maxSeqLen, RATIO);
    }
  }

  /** The kernel's count of valid lanes, tile by tile over the whole width. */
  method CountLanes(width: int, keys: int) returns (count: int)
    requires 0 <= keys <= width
    ensures count == keys
  {
    count := 0;
    var i := 0;
    while i < width
      invariant 0 <= i && count == Min(i, keys)
    {
      for lane := 0 to BLOCK
        invariant count == Min(i + lane, keys)
      {
        if i + lane < keys {
          count := count + 1;
        }
      }
      i := i + BLOCK;
    }
  }

  /** Decode row `t` starts with token `t`'s slots and then holds -1 up to `width`. */
  ghost predicate DecodeStored(s: Step, maxModelLen: int, out: Rows, t: int, width: nat)
    reads out.data, out.lens
  {
    && s.Valid(maxModelLen) && 0 <= t < s.numDecode && out.Valid() && t < out.capacity && width <= out.stride
    && out.Row(t)[..width] == PagedRow(s.table[s.tokenToReq[t]], s.blockSize, 0, s.Clipped(t, maxModelLen), width)
    && out.lens[t] == if s.slotMapping[t] >= 0 then s.Clipped(t, maxModelLen) else 0
  }

  /** Prefill row `p` holds the local indices below the token's key count, then -1. */
  ghost predicate PrefillStored(s: Step, maxModelLen: int, out: Rows, p: int, width: nat)
    reads out.data
  {
    && s.Valid(maxModelLen) && 0 <= p && p + s.numDecode < |s.positions|
    && out.Valid() && p < out.capacity && width <= out.stride
    && forall o :: 0 <= o < width ==> out.Row(p)[o] == if o < s.Clipped(p + s.numDecode, maxModelLen) then o else -1
  }

  class Builder {
    const maxModelLen: int
    const decode: Rows
    const prefill: Rows

    ghost predicate Valid() {
      && 1 <= maxModelLen && decode.Valid() && prefill.Valid()
      && decode.stride == prefill.stride == MaxCompressed(maxModelLen)
      && {decode.data, decode.lens} !! {prefill.data, prefill.lens}
    }

    constructor (maxModelLen: int, maxTokens: nat)
      requires 1 <= maxModelLen
      ensures Valid() && this.maxModelLen == maxModelLen && decode.capacity == prefill.capacity == maxTokens
      ensures fresh(decode.data) && fresh(decode.lens) && fresh(prefill.data) && fresh(prefill.lens)
    {
      WidthChecksHold(0, maxModelLen);
      this.maxModelLen := maxModelLen;
      decode := new Rows(maxTokens, MaxCompressed(maxModelLen));
      prefill := new Rows(maxTokens, MaxCompressed(maxModelLen));
    }

    ghost predicate HoldsRow(s: Step, t: int, width: nat)
      reads decode.data, decode.lens, prefill.data
    {
      if t < s.numDecode then DecodeStored(s, maxModelLen, decode, t, width)
      else PrefillStored(s, maxModelLen, prefill, t - s.numDecode, width)
    }

    method Program(s: Step, t: int, width: nat)
      requires Valid() && s.Valid(maxModelLen) && 0 <= t < |s.positions|
      requires s.numDecode <= decode.capacity && |s.positions| - s.numDecode <= prefill.capacity
      requires width == ActiveWidth(s.maxSeqLen, maxModelLen) <= decode.stride
      modifies decode.data, decode.lens, prefill.data
      ensures HoldsRow(s, t, width)
      ensures forall u :: u != t && old(HoldsRow(s, u, width)) ==> HoldsRow(s, u, width)
    {
      ClipLosesNothing(s, maxModelLen, t);
      var keys := Min((s.positions[t] + 1) / RATIO, width);
      if t < s.numDecode {
        DecodeProgram(s, t, width, keys);
      } else {
        prefill.StoreRow(t - s.numDecode, width, o => if o < keys then o else -1);
      }
    }

    method DecodeProgram(s: Step, t: int, width: nat, keys: int)
      requires Valid() && s.Valid(maxModelLen) && 0 <= t < s.numDecode <= decode.capacity
      requires keys == s.Clipped(t, maxModelLen) <= width <= decode.stride && 0 <= keys
      modifies decode.data, decode.lens
      ensures DecodeStored(s, maxModelLen, decode, t, width)
      ensures forall u :: u != t && old(DecodeStored(s, maxModelLen, decode, u, width)) ==>
                DecodeStored(s, maxModelLen, decode, u, width)
    {
      var table, bs := s.table[s.tokenToReq[t]], s.blockSize;
      assert MappedTo(table, bs, keys);
      decode.StoreRow(t, width, o requires 0 <= o => Entry(table, bs, keys, o));
      var count := CountLanes(width, keys);
      decode.lens[t] := if s.slotMapping[t] >= 0 then count else 0;
      assert decode.Row(t)[..width] == PagedRow(table, bs, 0, keys, width);
    }

    /** The slots a reader of the full-width contiguous view takes from decode row `t`,
        and those a reader of the narrow `[:, :width]` view would take. */
    ghost function WideRead(t: int): seq<int>
      reads decode.data, decode.lens
      requires Valid() && 0 <= t < decode.capacity && 0 <= decode.lens[t] <= decode.stride
    {
      decode.Row(t)[..decode.lens[t]]
    }

    ghost function NarrowRead(t: int, width: int): seq<int>
      reads decode.data, decode.lens
      requires Valid() && 0 <= t < decode.capacity && 0 <= decode.lens[t] <= width <= decode.stride
    {
      decode.Row(t)[..width][..decode.lens[t]]
    }

    /** One build, programs in any order. */
    method Build(s: Step, order: seq<int>) returns (width: nat)
      requires Valid() && s.Valid(maxModelLen) && IsOrder(order, |s.positions|)
      requires s.numDecode <= decode.capacity && |s.positions| - s.numDecode <= prefill.capacity
      modifies decode.data, decode.lens, prefill.data
      ensures width == ActiveWidth(s.maxSeqLen, maxModelLen) <= decode.stride
      ensures forall t :: 0 <= t < |s.positions| ==> HoldsRow(s, t, width)
    {
      WidthChecksHold(s.maxSeqLen, maxModelLen);
      width := ActiveWidth(s.maxSeqLen, maxModelLen);
      for k := 0 to |order|
        invariant forall t :: 0 <= t < |s.positions| && Runs(order[..k], t) ==> HoldsRow(s, t, width)
      {
        Program(s, order[k], width);
        RunsOneMore(order, k);
      }
      assert order[..|order|] == order;
    }

    /** Read through the stored lengths, both views of a decode row give exactly the
        token's slot list, whatever lies in the columns past the step's width. */
    lemma ViewsAgree(s: Step, t: int, width: nat)
      requires Valid() && s.Valid(maxModelLen) && 0 <= t < s.numDecode
      requires width == ActiveWidth(s.maxSeqLen, maxModelLen) && HoldsRow(s, t, width)
      ensures 0 <= decode.lens[t] <= width <= decode.stride
      ensures WideRead(t) == NarrowRead(t, width) == s.SlotList(t, maxModelLen)
    {
      ClipLosesNothing(s, maxModelLen, t);
      var table, keys := s.table[s.tokenToReq[t]], s.Clipped(t, maxModelLen);
      var n := decode.lens[t];
      assert decode.Row(t)[..width][..n] == decode.Row(t)[..n];
      assert PagedRow(table, s.blockSize, 0, keys, width)[..keys] == PagedRow(table, s.blockSize, 0, keys, keys);
    }
  }

  /** The slot list of a decode token in numbers: one slot per completed 128 tokens of its
      prefix, in order, and none for a padding token. */
  lemma SlotListEntries(s: Step, maxModelLen: int, t: int, k: int)
    requires s.Valid(maxModelLen) && 0 <= t < s.numDecode
    ensures |s.SlotList(t, maxModelLen)| == if s.slotMapping[t] >= 0 then (s.positions[t] + 1) / 128 else 0
    ensures 0 <= k < |s.SlotList(t, maxModelLen)| ==>
              var table := s.table[s.tokenToReq[t]];
              && s.blockSize > 0 && 0 <= k / s.blockSize < |table|
              && s.SlotList(t, maxModelLen)[k] == table[k / s.blockSize] * s.blockSize + k % s.blockSize
  {
    ClipLosesNothing(s, maxModelLen, t);
    if 0 <= k < |s.SlotList(t, maxModelLen)| {
      var table := s.table[s.tokenToReq[t]];
      assert s.SlotList(t, maxModelLen)[k] == Entry(table, s.blockSize, s.Keys(t), k);
      MappedBelow(table, s.blockSize, s.Keys(t), k);
      BlockOf(k, s.blockSize);
    }
  }

  /** A live prefill token's row in numbers. */
  lemma PrefillEntries(s: Step, maxModelLen: int, out: Rows, p: int, width: nat, o: int)
    requires PrefillStored(s, maxModelLen, out, p, width) && 0 <= o < width
    requires s.slotMapping[p + s.numDecode] >= 0
    ensures out.Row(p)[o] == if o < (s.positions[p + s.numDecode] + 1) / 128 then o else -1
  {
    ClipLosesNothing(s, maxModelLen, p + s.numDecode);
  }

  /** Main result on the view change: after any run of builds of any widths, the contiguous
      full-width view and the narrow view both read as the last step's slot lists. */
  method RunBuilds(d: Builder, history: seq<Step>, last: Step, orders: seq<seq<int>>, order: seq<int>)
    returns (width: nat)
    requires d.Valid() && last.Valid(d.maxModelLen) && IsOrder(order, |last.positions|)
    requires last.numDecode <= d.decode.capacity && |last.positions| - last.numDecode <= d.prefill.capacity
    requires |orders| == |history|
    requires forall k :: 0 <= k < |history| ==>
               && history[k].Valid(d.maxModelLen) && IsOrder(orders[k], |history[k].positions|)
               && history[k].numDecode <= d.decode.capacity
               && |history[k].positions| - history[k].numDecode <= d.prefill.capacity
    modifies d.decode.data, d.decode.lens, d.prefill.data
    ensures width <= d.decode.stride
    ensures forall t :: 0 <= t < last.numDecode ==>
              && 0 <= d.decode.lens[t] <= width
              && d.WideRead(t) == d.NarrowRead(t, width) == last.SlotList(t, d.maxModelLen)
    ensures forall p :: 0 <= p < |last.positions| - last.numDecode ==>
              PrefillStored(last, d.maxModelLen, d.prefill, p, width)
  {
    for k := 0 to |history| {
      var _ := d.Build(history[k], orders[k]);
    }
    width := d.Build(last, order);
    forall t | 0 <= t < last.numDecode
      ensures 0 <= d.decode.lens[t] <= width
      ensures d.WideRead(t) == d.NarrowRead(t, width) == last.SlotList(t, d.maxModelLen)
    {
      d.ViewsAgree(last, t, width);
    }
    forall p | 0 <= p < |last.positions| - last.numDecode
      ensures PrefillStored(last, d.maxModelLen, d.prefill, p, width)
    {
      assert d.HoldsRow(last, p + last.numDecode, width);
    }
  }
}
