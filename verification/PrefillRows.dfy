/** The row-bound kernel of an indexer prefill chunk: for every query token, the range of
    gathered compressed keys it may score, and for every gathered key its request. */
module PrefillRows {
  import opened Arith
  import opened Sums
  import opened Dcp
  import opened Ragged
  import opened Launch
  import opened PrefillSplit
  import opened PrefillPlan

  const BLOCK: int := 1024

  datatype RowBatch = RowBatch(starts: seq<int>, seqLens: seq<int>, ratio: int,
                               world: int, rank: int, interleave: int)
  {
    predicate Valid() {
      && ValidStarts(starts) && |seqLens| == |starts| - 1
      && ratio >= 1 && ValidShard(world, rank, interleave)
      && forall b :: 0 <= b < |seqLens| ==> starts[b + 1] - starts[b] <= seqLens[b]
    }

    /** This rank's part of `n` keys. */
    function Share(n: int): int
      requires ValidShard(world, rank, interleave)
    {
      if world > 1 then LocalLen(n, world, rank, interleave) else n
    }

    function Compressed(): (c: seq<int>)
      requires Valid()
      ensures |c| == |seqLens|
    {
      seq(|seqLens|, b requires 0 <= b < |seqLens| => seqLens[b] / ratio)
    }

    function Shares(): (c: seq<int>)
      requires Valid()
      ensures |c| == |seqLens|
    {
      seq(|seqLens|, b requires 0 <= b < |seqLens| => Share(seqLens[b] / ratio))
    }

    /** Where each request's keys start: globally, and in this rank's gathered buffer. */
    function SegStarts(): (c: seq<int>)
      requires Valid()
      ensures |c| == |starts|
    {
      CuSum(Compressed())
    }

    function RowStarts(): (c: seq<int>)
      requires Valid()
      ensures |c| == |starts|
    {
      CuSum(Shares())
    }

    /** Compressed keys completed by query `p`'s token. */
    function KeyCount(p: int): int
      requires Valid() && 0 <= p < Total(starts)
    {
      (Position(starts, seqLens, p) + 1) / ratio
    }

    function Ks(p: int): int
      requires Valid() && 0 <= p < Total(starts)
    {
      RowStarts()[ReqOf(starts, p)]
    }

    function Ke(p: int): int
      requires Valid() && 0 <= p < Total(starts)
    {
      Ks(p) + Share(KeyCount(p))
    }

    /** The bounds of the queries `[lo, hi)`. */
    function Bounds(lo: int, hi: int): seq<(int, int)>
      requires Valid() && 0 <= lo <= hi <= Total(starts)
    {
      seq(hi - lo, i requires 0 <= i < hi - lo => (Ks(lo + i), Ke(lo + i)))
    }
  }

  lemma StartsAreValid(r: RowBatch)
    requires r.Valid()
    ensures NonNegative(r.Compressed()) && NonNegative(r.Shares())
    ensures ValidStarts(r.SegStarts()) && ValidStarts(r.RowStarts())
  {
    forall b | 0 <= b < |r.seqLens|
      ensures 0 <= r.Compressed()[b] && 0 <= r.Shares()[b]
    {
      assert r.starts[b] <= r.starts[b + 1];
      LocalLenMonotone(0, r.Compressed()[b], r.world, r.rank, r.interleave);
      LocalLenZero(r.world, r.rank, r.interleave);
    }
    CuSumIsValid(r.Compressed());
    CuSumIsValid(r.Shares());
  }

  /** Sized from host upper bounds, the key-owner array holds all keys of the device. */
  lemma DeviceKeysFit(r: RowBatch, keysCpu: seq<int>)
    requires r.Valid() && |keysCpu| == |r.seqLens|
    requires forall b :: 0 <= b < |keysCpu| ==> r.seqLens[b] / r.ratio <= keysCpu[b]
    ensures Total(r.SegStarts()) <= SumRange(keysCpu, 0, |keysCpu|)
  {
    SumPointwise(r.Compressed(), keysCpu, 0, |keysCpu|);
  }

  /** The output arrays of one launch, over the query slice `[lo, hi)`. */
  class RowOutputs {
    const lo: int
    const hi: int
    const ks: array<int>
    const ke: array<int>
    const tokenToSeq: array<int>
    /** How often each bound slot has been stored to. */
    ghost var stores: seq<nat>

    ghost predicate Valid(r: RowBatch)
      reads this
    {
      && r.Valid() && 0 <= lo <= hi <= Total(r.starts)
      && ks.Length == ke.Length == hi - lo && |stores| == hi - lo
      && Total(r.SegStarts()) <= tokenToSeq.Length
      && ks != ke && ks != tokenToSeq && ke != tokenToSeq
    }

    constructor (r: RowBatch, lo: int, hi: int, keys: nat)
      requires r.Valid() && 0 <= lo <= hi <= Total(r.starts) && Total(r.SegStarts()) <= keys
      ensures Valid(r) && this.lo == lo && this.hi == hi && tokenToSeq.Length == keys
      ensures fresh(ks) && fresh(ke) && fresh(tokenToSeq)
      ensures forall q :: 0 <= q < hi - lo ==> stores[q] == 0
    {
      this.lo, this.hi := lo, hi;
      ks := new int[hi - lo];
      ke := new int[hi - lo];
      tokenToSeq := new int[keys];
      stores := seq(hi - lo, _ => 0);
    }

    /** The bounds of the token at `offset` of request `b`. */
    static method LaneBounds(r: RowBatch, b: int, offset: int) returns (rowStart: int, rowStop: int)
      requires r.Valid() && 0 <= b < |r.seqLens| && 0 <= offset < r.starts[b + 1] - r.starts[b]
      ensures var p := r.starts[b] + offset;
              0 <= p < Total(r.starts) && rowStart == r.Ks(p) && rowStop == r.Ke(p)
    {
      ReqOfUnique(r.starts, r.starts[b] + offset, b);
      rowStart := r.RowStarts()[b];
      var startPos := r.seqLens[b] - (r.starts[b + 1] - r.starts[b]);
      var lenPerToken := (startPos + 1 + offset) / r.ratio;
      if r.world > 1 {
        var base := (lenPerToken / r.interleave / r.world) * r.interleave;
        var remainder := lenPerToken - base * r.world;
        remainder := Min(Max(remainder - r.rank * r.interleave, 0), r.interleave);
        lenPerToken := base + remainder;
      }
      rowStop := rowStart + lenPerToken;
    }

    /** One lane of the bounds loop of program `b`: stores at most one slot. */
    method BoundLane(r: RowBatch, b: int, offset: int)
      requires Valid(r) && 0 <= b < |r.seqLens| && 0 <= offset
      modifies this`stores, ks, ke
      ensures Valid(r)
      ensures var p := r.starts[b] + offset;
              p < r.starts[b + 1] && lo <= p < hi ==>
                && 0 <= p < Total(r.starts) && stores[p - lo] == old(stores[p - lo]) + 1
                && ks[p - lo] == r.Ks(p) && ke[p - lo] == r.Ke(p)
      ensures forall q :: 0 <= q < hi - lo && !(q + lo == r.starts[b] + offset < r.starts[b + 1]) ==>
                ks[q] == old(ks[q]) && ke[q] == old(ke[q]) && stores[q] == old(stores[q])
    {
      var absPos := r.starts[b] + offset;
      if absPos < r.starts[b + 1] && lo <= absPos < hi {
        var outPos := absPos - lo;
        ks[outPos], ke[outPos] := LaneBounds(r, b, offset);
        stores := stores[outPos := stores[outPos] + 1];
      }
    }

    /** One tile of the bounds loop of program `b`. */
    method BoundTile(r: RowBatch, b: int, i: int)
      requires Valid(r) && 0 <= b < |r.seqLens| && 0 <= i
      modifies this`stores, ks, ke
      ensures Valid(r)
      ensures forall q :: 0 <= q < hi - lo ==>
                if r.starts[b] + i <= q + lo < r.starts[b] + i + BLOCK && q + lo < r.starts[b + 1]
                then ks[q] == r.Ks(q + lo) && ke[q] == r.Ke(q + lo) && stores[q] == old(stores[q]) + 1
                else ks[q] == old(ks[q]) && ke[q] == old(ke[q]) && stores[q] == old(stores[q])
    {
      for lane := 0 to BLOCK
        invariant |stores| == hi - lo
        invariant forall q :: 0 <= q < hi - lo ==>
                    if r.starts[b] + i <= q + lo < r.starts[b] + i + lane && q + lo < r.starts[b + 1]
                    then ks[q] == r.Ks(q + lo) && ke[q] == r.Ke(q + lo) && stores[q] == old(stores[q]) + 1
                    else ks[q] == old(ks[q]) && ke[q] == old(ke[q]) && stores[q] == old(stores[q])
      {
        BoundLane(r, b, i + lane);
      }
    }

    /** The bounds loop of program `b`. */
    method StoreBounds(r: RowBatch, b: int)
      requires Valid(r) && 0 <= b < |r.seqLens|
      modifies this`stores, ks, ke
      ensures Valid(r)
      ensures forall q :: 0 <= q < hi - lo ==>
                if r.starts[b] <= q + lo < r.starts[b + 1]
                then ks[q] == r.Ks(q + lo) && ke[q] == r.Ke(q + lo) && stores[q] == old(stores[q]) + 1
                else ks[q] == old(ks[q]) && ke[q] == old(ke[q]) && stores[q] == old(stores[q])
    {
      var queryLen := r.starts[b + 1] - r.starts[b];
      var i := 0;
      while i < queryLen
        invariant 0 <= i && Valid(r)
        invariant forall q :: 0 <= q < hi - lo ==>
                    if r.starts[b] <= q + lo < r.starts[b] + i && q + lo < r.starts[b + 1]
                    then ks[q] == r.Ks(q + lo) && ke[q] == r.Ke(q + lo) && stores[q] == old(stores[q]) + 1
                    else ks[q] == old(ks[q]) && ke[q] == old(ke[q]) && stores[q] == old(stores[q])
      {
        BoundTile(r, b, i);
        i := i + BLOCK;
      }
    }

    /** The key-owner loop of program `b`. */
    method StoreOwners(r: RowBatch, b: int)
      requires Valid(r) && 0 <= b < |r.seqLens|
      modifies tokenToSeq
      ensures forall t :: 0 <= t < tokenToSeq.Length ==>
                tokenToSeq[t] == if r.SegStarts()[b] <= t < r.SegStarts()[b + 1] then b else old(tokenToSeq[t])
    {
      StartsAreValid(r);
      var seqStart := r.SegStarts()[b];
      var compressedLen := r.SegStarts()[b + 1] - seqStart;
      var i := 0;
      while i < compressedLen
        invariant 0 <= i
        invariant forall t :: 0 <= t < tokenToSeq.Length ==>
                    tokenToSeq[t] == if seqStart <= t < seqStart + Min(i, compressedLen) then b else old(tokenToSeq[t])
      {
        for lane := 0 to BLOCK
          invariant forall t :: 0 <= t < tokenToSeq.Length ==>
                      tokenToSeq[t] == if seqStart <= t < seqStart + Min(i + lane, compressedLen) then b
                                       else old(tokenToSeq[t])
        {
          if i + lane < compressedLen {
            tokenToSeq[seqStart + i + lane] := b;
          }
        }
        i := i + BLOCK;
      }
    }

    /** Program `b`: stores to the slots of its own request and to no others. */
    method Program(r: RowBatch, b: int)
      requires Valid(r) && 0 <= b < |r.seqLens| && ValidStarts(r.SegStarts())
      modifies this`stores, ks, ke, tokenToSeq
      ensures Valid(r)
      ensures forall q :: 0 <= q < hi - lo ==>
                if ReqOf(r.starts, q + lo) == b
                then ks[q] == r.Ks(q + lo) && ke[q] == r.Ke(q + lo) && stores[q] == old(stores[q]) + 1
                else ks[q] == old(ks[q]) && ke[q] == old(ke[q]) && stores[q] == old(stores[q])
      ensures forall t :: 0 <= t < Total(r.SegStarts()) ==>
                tokenToSeq[t] == if ReqOf(r.SegStarts(), t) == b then b else old(tokenToSeq[t])
      ensures forall t :: Total(r.SegStarts()) <= t < tokenToSeq.Length ==> tokenToSeq[t] == old(tokenToSeq[t])
    {
      forall p | lo <= p < hi
        ensures ReqOf(r.starts, p) == b <==> r.starts[b] <= p < r.starts[b + 1]
      {
        if r.starts[b] <= p < r.starts[b + 1] {
          ReqOfUnique(r.starts, p, b);
        }
      }
      forall t | 0 <= t < Total(r.SegStarts())
        ensures ReqOf(r.SegStarts(), t) == b <==> r.SegStarts()[b] <= t < r.SegStarts()[b + 1]
      {
        if r.SegStarts()[b] <= t < r.SegStarts()[b + 1] {
          ReqOfUnique(r.SegStarts(), t, b);
        }
      }
      StoreBounds(r, b);
      StoreOwners(r, b);
    }

    /** The launch: one program per request, in any order the device picks.  Whatever
        the arrays held and whatever the order, every bound slot is stored exactly
        once, with the bounds of its query, and every gathered key gets its request. */
    method Launch(r: RowBatch, order: seq<int>)
      requires Valid(r) && IsOrder(order, |r.seqLens|)
      requires forall q :: 0 <= q < hi - lo ==> stores[q] == 0
      modifies this`stores, ks, ke, tokenToSeq
      ensures Valid(r)
      ensures forall q :: 0 <= q < hi - lo ==> ks[q] == r.Ks(q + lo) && ke[q] == r.Ke(q + lo) && stores[q] == 1
      ensures ValidStarts(r.SegStarts())
      ensures forall t :: 0 <= t < Total(r.SegStarts()) ==> tokenToSeq[t] == ReqOf(r.SegStarts(), t)
      ensures forall t :: Total(r.SegStarts()) <= t < tokenToSeq.Length ==> tokenToSeq[t] == old(tokenToSeq[t])
    {
      StartsAreValid(r);
      for k := 0 to |order|
        invariant Valid(r)
        invariant forall q :: 0 <= q < hi - lo ==>
                    if Runs(order[..k], ReqOf(r.starts, q + lo))
                    then ks[q] == r.Ks(q + lo) && ke[q] == r.Ke(q + lo) && stores[q] == 1
                    else stores[q] == 0
        invariant forall t :: 0 <= t < Total(r.SegStarts()) && Runs(order[..k], ReqOf(r.SegStarts(), t)) ==>
                    tokenToSeq[t] == ReqOf(r.SegStarts(), t)
        invariant forall t :: Total(r.SegStarts()) <= t < tokenToSeq.Length ==> tokenToSeq[t] == old(tokenToSeq[t])
      {
        Program(r, order[k]);
        RunsOneMore(order, k);
      }
      assert order[..|order|] == order;
    }
  }

  /** A query's bounds lie in its own request's segment of the gathered keys. */
  lemma BoundsInOwnSegment(r: RowBatch, p: int)
    requires r.Valid() && 0 <= p < Total(r.starts)
    ensures r.RowStarts()[ReqOf(r.starts, p)] == r.Ks(p)
    ensures r.Ks(p) <= r.Ke(p) <= r.RowStarts()[ReqOf(r.starts, p) + 1]
  {
    var b := ReqOf(r.starts, p);
    StartsAreValid(r);
    DivMonotone(Position(r.starts, r.seqLens, p) + 1, r.seqLens[b], r.ratio);
    DivMonotone(0, Position(r.starts, r.seqLens, p) + 1, r.ratio);
    LocalLenMonotone(0, r.KeyCount(p), r.world, r.rank, r.interleave);
    LocalLenZero(r.world, r.rank, r.interleave);
    LocalLenMonotone(r.KeyCount(p), r.Compressed()[b], r.world, r.rank, r.interleave);
    assert r.RowStarts()[b + 1] == r.RowStarts()[b] + r.Shares()[b];
  }

  /** The bounds span exactly the keys, among those the token has completed, that this
      rank owns; over all ranks the spans add up to all completed keys. */
  lemma BoundsCountOwnedKeys(r: RowBatch, p: int)
    requires r.Valid() && 0 <= p < Total(r.starts)
    ensures r.KeyCount(p) >= 0
    ensures r.Ke(p) - r.Ks(p) == |OwnedKeys(r.KeyCount(p), r.world, r.rank, r.interleave)|
    ensures RankSum(r.KeyCount(p), r.world, r.world, r.interleave) == r.KeyCount(p)
  {
    DivMonotone(0, Position(r.starts, r.seqLens, p) + 1, r.ratio);
    LocalLenCountsOwnedKeys(r.KeyCount(p), r.world, r.rank, r.interleave);
    if r.world == 1 {
      LocalLenSingleRank(r.KeyCount(p), r.interleave);
    }
    RanksShareEveryKey(r.KeyCount(p), r.world, r.interleave);
  }

  // The outputs in terms of the sequence lengths.

  /** Compressed keys of the requests before `b`. */
  ghost function KeysBefore(seqLens: seq<int>, ratio: int, b: nat): int
    requires b <= |seqLens| && ratio >= 1
  {
    if b == 0 then 0 else KeysBefore(seqLens, ratio, b - 1) + seqLens[b - 1] / ratio
  }

  lemma {:induction false} SegmentStart(r: RowBatch, b: nat)
    requires r.Valid() && b <= |r.seqLens|
    ensures r.SegStarts()[b] == KeysBefore(r.seqLens, r.ratio, b)
  {
    if b > 0 {
      SegmentStart(r, b - 1);
    }
  }

  /** Key `k` of request `b` has a place in the owner array, in the request's own segment. */
  lemma KeyIsOwned(r: RowBatch, b: nat, k: int, t: int)
    requires r.Valid() && b < |r.seqLens| && 0 <= k < r.seqLens[b] / r.ratio
    requires t == KeysBefore(r.seqLens, r.ratio, b) + k
    ensures ValidStarts(r.SegStarts()) && 0 <= t < Total(r.SegStarts()) && ReqOf(r.SegStarts(), t) == b
  {
    StartsAreValid(r);
    SegmentStart(r, b);
    SegmentStart(r, b + 1);
    ReqOfUnique(r.SegStarts(), t, b);
  }

  /** Without sharding the row bounds count from the same starts. */
  lemma SingleRankStarts(r: RowBatch)
    requires r.Valid() && r.world == 1
    ensures r.RowStarts() == r.SegStarts()
  {
    assert r.Shares() == r.Compressed();
  }

  /** Place `KeysBefore(b) + k` names request `b`. */
  ghost predicate OwnerNamed(owners: seq<int>, seqLens: seq<int>, ratio: int, b: nat, k: int)
    requires b <= |seqLens| && ratio >= 1
  {
    var t := KeysBefore(seqLens, ratio, b) + k;
    0 <= t < |owners| && owners[t] == b
  }

  /** One launch, its key owners read back: the place of every compressed key of every
      request names that request. */
  method LaunchOwners(r: RowBatch, lo: int, hi: int, keys: nat, order: seq<int>) returns (owners: seq<int>)
    requires r.Valid() && 0 <= lo <= hi <= Total(r.starts) && IsOrder(order, |r.seqLens|)
    requires KeysBefore(r.seqLens, r.ratio, |r.seqLens|) <= keys
    ensures |owners| == keys
    ensures forall b: nat, k :: b < |r.seqLens| && 0 <= k < r.seqLens[b] / r.ratio ==>
              OwnerNamed(owners, r.seqLens, r.ratio, b, k)
  {
    SegmentStart(r, |r.seqLens|);
    var o := new RowOutputs(r, lo, hi, keys);
    o.Launch(r, order);
    owners := o.tokenToSeq[..];
    OwnersAreNamed(r, owners);
  }

  lemma OwnersAreNamed(r: RowBatch, owners: seq<int>)
    requires r.Valid() && ValidStarts(r.SegStarts()) && Total(r.SegStarts()) <= |owners|
    requires forall t :: 0 <= t < Total(r.SegStarts()) ==> owners[t] == ReqOf(r.SegStarts(), t)
    ensures forall b: nat, k :: b < |r.seqLens| && 0 <= k < r.seqLens[b] / r.ratio ==>
              OwnerNamed(owners, r.seqLens, r.ratio, b, k)
  {
    forall b: nat, k | b < |r.seqLens| && 0 <= k < r.seqLens[b] / r.ratio
      ensures OwnerNamed(owners, r.seqLens, r.ratio, b, k)
    {
      KeyIsOwned(r, b, k, KeysBefore(r.seqLens, r.ratio, b) + k);
    }
  }

  /** This rank's keys of the requests before `b`, counted one by one. */
  ghost function OwnedBefore(r: RowBatch, b: nat): int
    requires b <= |r.seqLens| && r.ratio >= 1 && ValidShard(r.world, r.rank, r.interleave)
  {
    if b == 0 then 0
    else OwnedBefore(r, b - 1) + |OwnedKeys(r.seqLens[b - 1] / r.ratio, r.world, r.rank, r.interleave)|
  }

  lemma ShareIsOwned(r: RowBatch, n: nat)
    requires ValidShard(r.world, r.rank, r.interleave)
    ensures r.Share(n) == |OwnedKeys(n, r.world, r.rank, r.interleave)|
  {
    LocalLenCountsOwnedKeys(n, r.world, r.rank, r.interleave);
    if r.world == 1 {
      LocalLenSingleRank(n, r.interleave);
    }
  }

  lemma {:induction false} RowStart(r: RowBatch, b: nat)
    requires r.Valid() && b <= |r.seqLens|
    ensures r.RowStarts()[b] == OwnedBefore(r, b)
  {
    if b > 0 {
      RowStart(r, b - 1);
      StartsAreValid(r);
      ShareIsOwned(r, r.Compressed()[b - 1]);
    }
  }

  /** The bounds of query `j` of request `b`, in any slice that holds it: behind the rank's
      keys of the requests before, as many of its own as the query has completed. */
  lemma BoundsOfQuery(r: RowBatch, lo: int, hi: int, b: nat, j: int, p: int, n: int)
    requires r.Valid() && b < |r.seqLens| && 0 <= j < r.starts[b + 1] - r.starts[b]
    requires p == r.starts[b] + j && 0 <= lo <= p < hi <= Total(r.starts)
    requires n == (r.seqLens[b] - (r.starts[b + 1] - r.starts[b]) + j + 1) / r.ratio
    ensures r.Bounds(lo, hi)[p - lo].0 == OwnedBefore(r, b)
    ensures r.Bounds(lo, hi)[p - lo].1 == OwnedBefore(r, b) + |OwnedKeys(n, r.world, r.rank, r.interleave)|
  {
    QueryOf(r, b, j, p, n);
    assert r.Bounds(lo, hi)[p - lo] == (r.Ks(p), r.Ke(p));
  }

  lemma QueryOf(r: RowBatch, b: nat, j: int, p: int, n: int)
    requires r.Valid() && b < |r.seqLens| && 0 <= j < r.starts[b + 1] - r.starts[b] && p == r.starts[b] + j
    requires n == (r.seqLens[b] - (r.starts[b + 1] - r.starts[b]) + j + 1) / r.ratio
    ensures 0 <= p < Total(r.starts) && r.Ks(p) == OwnedBefore(r, b)
    ensures r.Ke(p) == OwnedBefore(r, b) + |OwnedKeys(n, r.world, r.rank, r.interleave)|
  {
    PositionInRequest(r.starts, r.seqLens, b, j);
    RowStart(r, b);
    DivMonotone(0, Position(r.starts, r.seqLens, p) + 1, r.ratio);
    assert r.KeyCount(p) == n;
    ShareIsOwned(r, n);
  }

  predicate SlicesOf(r: RowBatch, cs: seq<Chunk>) {
    && r.Valid()
    && forall i {:trigger cs[i]} :: 0 <= i < |cs| ==> 0 <= cs[i].qStart <= cs[i].qStop <= Total(r.starts)
  }

  /** The bounds the chunks of one group produce, one after the other. */
  ghost function SlicedBounds(r: RowBatch, cs: seq<Chunk>): seq<(int, int)>
    requires SlicesOf(r, cs)
  {
    if cs == [] then [] else r.Bounds(cs[0].qStart, cs[0].qStop) + SlicedBounds(r, cs[1..])
  }

  lemma PlannedSlicesOf(r: RowBatch, reqStart: int, reqStop: int, maxQ: int, q: int)
    requires r.Valid() && maxQ >= 1 && 0 <= q
    ensures SlicesOf(r, Slices(reqStart, reqStop, Total(r.starts), maxQ, q))
  {
    SlicesRun(reqStart, reqStop, Total(r.starts), maxQ, q);
  }

  lemma BoundsConcat(r: RowBatch, lo: int, mid: int, hi: int)
    requires r.Valid() && 0 <= lo <= mid <= hi <= Total(r.starts)
    ensures r.Bounds(lo, mid) + r.Bounds(mid, hi) == r.Bounds(lo, hi)
  {
  }

  /** The bounds of the planned query slices concatenate to those of the whole group. */
  lemma {:induction false} SlicedRunEqualsWhole(r: RowBatch, reqStart: int, reqStop: int, maxQ: int, q: int)
    requires r.Valid() && maxQ >= 1 && 0 <= q
    ensures SlicesOf(r, Slices(reqStart, reqStop, Total(r.starts), maxQ, q))
    ensures SlicedBounds(r, Slices(reqStart, reqStop, Total(r.starts), maxQ, q)) ==
            r.Bounds(Min(q, Total(r.starts)), Total(r.starts))
    decreases Total(r.starts) - q
  {
    var m := Total(r.starts);
    PlannedSlicesOf(r, reqStart, reqStop, maxQ, q);
    if q < m {
      var mid := Min(q + maxQ, m);
      SlicedRunEqualsWhole(r, reqStart, reqStop, maxQ, q + maxQ);
      var cs, rest := Slices(reqStart, reqStop, m, maxQ, q), Slices(reqStart, reqStop, m, maxQ, q + maxQ);
      assert cs[0] == Chunk(reqStart, reqStop, q, mid) && cs[1..] == rest;
      BoundsConcat(r, q, mid, m);
    }
  }

  /** One launch over the queries `[lo, hi)`, its outputs read back as pairs. */
  method LaunchSlice(r: RowBatch, lo: int, hi: int, keys: nat, order: seq<int>) returns (out: seq<(int, int)>)
    requires r.Valid() && 0 <= lo <= hi <= Total(r.starts) && Total(r.SegStarts()) <= keys
    requires IsOrder(order, |r.seqLens|)
    ensures out == r.Bounds(lo, hi)
  {
    var o := new RowOutputs(r, lo, hi, keys);
    o.Launch(r, order);
    var ks, ke := o.ks[..], o.ke[..];
    out := seq(hi - lo, i requires 0 <= i < hi - lo => (ks[i], ke[i]));
  }

  /** One launch per planned chunk of a group, each in its own program order. */
  method LaunchChunks(r: RowBatch, cs: seq<Chunk>, keys: nat, orders: seq<seq<int>>) returns (out: seq<(int, int)>)
    requires SlicesOf(r, cs) && Total(r.SegStarts()) <= keys && |orders| == |cs|
    requires forall k :: 0 <= k < |orders| ==> IsOrder(orders[k], |r.seqLens|)
    ensures out == SlicedBounds(r, cs)
  {
    out := [];
    for k := 0 to |cs|
      invariant SlicesOf(r, cs[k..]) && out + SlicedBounds(r, cs[k..]) == SlicedBounds(r, cs)
    {
      var slice := LaunchSlice(r, cs[k].qStart, cs[k].qStop, keys, orders[k]);
      assert cs[k..][1..] == cs[k + 1..];
      out := out + slice;
    }
  }

  /** Launching the kernel on every planned slice and concatenating the outputs gives what
      one launch over the whole group gives, whatever the program orders. */
  method SlicedLaunchEqualsWhole(r: RowBatch, reqStart: int, reqStop: int, maxQ: int, keys: nat,
                                 orders: seq<seq<int>>, order: seq<int>)
    returns (sliced: seq<(int, int)>, whole: seq<(int, int)>)
    requires r.Valid() && maxQ >= 1 && Total(r.SegStarts()) <= keys && IsOrder(order, |r.seqLens|)
    requires |orders| == |Slices(reqStart, reqStop, Total(r.starts), maxQ, 0)|
    requires forall k :: 0 <= k < |orders| ==> IsOrder(orders[k], |r.seqLens|)
    ensures sliced == whole == r.Bounds(0, Total(r.starts))
  {
    assert Min(0, Total(r.starts)) == 0;
    SlicedRunEqualsWhole(r, reqStart, reqStop, maxQ, 0);
    var cs := AppendSlices([], reqStart, reqStop, Total(r.starts), maxQ);
    assert cs == Slices(reqStart, reqStop, Total(r.starts), maxQ, 0);
    sliced := LaunchChunks(r, cs, keys, orders);
    whole := LaunchSlice(r, 0, Total(r.starts), keys, order);
  }
}
