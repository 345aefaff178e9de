/** How a request is classified does not change what its tokens see: prefill row bounds,
    flattened or native decode lengths, and C128A counts agree on the same token. */
module Classification {
  import opened Arith
  import opened Dcp
  import opened Ragged
  import PrefillRows
  import DecodeSpec
  import DecodeTheorems
  import C128A

  /** Sharding the compressed keys, as the prefill kernel does, leaves as many of `n` keys as
      compressing the sharded ones, as the decode path does. */
  predicate OrdersAgree(n: int, ratio: int, world: int, rank: int, interleave: int)
    requires ratio >= 1 && ValidShard(world, rank, interleave)
  {
    LocalLen(n / ratio, world, rank, interleave) == LocalLen(n, world, rank, interleave) / ratio
  }

  /** A live token appears as query `p` of a prefill chunk and as row `i` of a decode batch,
      on the same rank and with the same compression. */
  ghost predicate SameToken(r: PrefillRows.RowBatch, p: int, cfg: DecodeSpec.Config, b: DecodeSpec.Batch, i: int)
    requires r.Valid() && 0 <= p < Total(r.starts)
  {
    && b.Valid(cfg) && 0 <= i < Total(b.starts) && DecodeTheorems.LiveRow(b, i)
    && DecodeTheorems.FullRequest(cfg, b, i) && DecodeTheorems.Kept(cfg, b, DecodeTheorems.Entry(cfg, b, i))
    && Position(r.starts, r.seqLens, p) == Position(b.starts, b.seqLens, i)
    && (r.ratio, r.world, r.rank, r.interleave) == (cfg.ratio, cfg.world, cfg.rank, cfg.interleave)
    && (b.dcpLocal <==> cfg.world > 1)
  }

  /** It gets the same key bound if and only if the two orders agree on its causal length. */
  lemma PrefillAndDecodeAgreeIff(r: PrefillRows.RowBatch, p: int, cfg: DecodeSpec.Config, b: DecodeSpec.Batch, i: int)
    requires r.Valid() && 0 <= p < Total(r.starts) && SameToken(r, p, cfg, b, i)
    ensures 0 <= DecodeTheorems.Entry(cfg, b, i) < |b.FinalLens(cfg)|
    ensures b.FinalLens(cfg)[DecodeTheorems.Entry(cfg, b, i)] == r.Ke(p) - r.Ks(p) <==>
            OrdersAgree(Position(r.starts, r.seqLens, p) + 1, r.ratio, r.world, r.rank, r.interleave)
  {
    PrefillSpan(r, p, Position(r.starts, r.seqLens, p) + 1);
    TokenSpan(r, p, cfg, b, i, r.Ke(p) - r.Ks(p));
  }

  lemma TokenSpan(r: PrefillRows.RowBatch, p: int, cfg: DecodeSpec.Config, b: DecodeSpec.Batch, i: int, bound: int)
    requires r.Valid() && 0 <= p < Total(r.starts) && SameToken(r, p, cfg, b, i)
    requires bound == r.Share((Position(r.starts, r.seqLens, p) + 1) / r.ratio)
    ensures 0 <= DecodeTheorems.Entry(cfg, b, i) < |b.FinalLens(cfg)|
    ensures b.FinalLens(cfg)[DecodeTheorems.Entry(cfg, b, i)] == bound <==>
            OrdersAgree(Position(r.starts, r.seqLens, p) + 1, r.ratio, r.world, r.rank, r.interleave)
  {
    DecodeSpan(r, cfg, b, i, Position(r.starts, r.seqLens, p) + 1, bound);
  }

  /** The builders admit sharding or compression, not both, and then it does. */
  lemma PrefillAndDecodeAgree(r: PrefillRows.RowBatch, p: int, cfg: DecodeSpec.Config, b: DecodeSpec.Batch, i: int)
    requires r.Valid() && 0 <= p < Total(r.starts) && SameToken(r, p, cfg, b, i)
    requires cfg.world == 1 || cfg.ratio == 1
    ensures 0 <= DecodeTheorems.Entry(cfg, b, i) < |b.FinalLens(cfg)|
    ensures b.FinalLens(cfg)[DecodeTheorems.Entry(cfg, b, i)] == r.Ke(p) - r.Ks(p)
  {
    OneOfThemAgrees(Position(r.starts, r.seqLens, p) + 1, r.ratio, r.world, r.rank, r.interleave);
    PrefillAndDecodeAgreeIff(r, p, cfg, b, i);
  }

  lemma DecodeSpan(r: PrefillRows.RowBatch, cfg: DecodeSpec.Config, b: DecodeSpec.Batch, i: int,
                   n: int, bound: int)
    requires b.Valid(cfg) && 0 <= i < Total(b.starts) && DecodeTheorems.LiveRow(b, i)
    requires DecodeTheorems.FullRequest(cfg, b, i) && DecodeTheorems.Kept(cfg, b, DecodeTheorems.Entry(cfg, b, i))
    requires n == Position(b.starts, b.seqLens, i) + 1
    requires r.ratio >= 1 && ValidShard(r.world, r.rank, r.interleave) && bound == r.Share(n / r.ratio)
    requires (r.ratio, r.world, r.rank, r.interleave) == (cfg.ratio, cfg.world, cfg.rank, cfg.interleave)
    requires b.dcpLocal <==> cfg.world > 1
    ensures 0 <= DecodeTheorems.Entry(cfg, b, i) < |b.FinalLens(cfg)|
    ensures b.FinalLens(cfg)[DecodeTheorems.Entry(cfg, b, i)] == bound <==>
            OrdersAgree(n, r.ratio, r.world, r.rank, r.interleave)
  {
    DecodeTheorems.RowSeesItsCausalPrefix(cfg, b, i);
    FinishAndShare(r, cfg, b, n);
  }

  lemma PrefillSpan(r: PrefillRows.RowBatch, p: int, n: int)
    requires r.Valid() && 0 <= p < Total(r.starts) && n == Position(r.starts, r.seqLens, p) + 1
    ensures r.Ke(p) - r.Ks(p) == r.Share(n / r.ratio)
  {
  }

  lemma FinishAndShare(r: PrefillRows.RowBatch, cfg: DecodeSpec.Config, b: DecodeSpec.Batch, n: int)
    requires cfg.Valid() && (r.ratio, r.world, r.rank, r.interleave) == (cfg.ratio, cfg.world, cfg.rank, cfg.interleave)
    requires b.dcpLocal <==> cfg.world > 1
    ensures b.Finish(cfg, n) == r.Share(n / r.ratio) <==> OrdersAgree(n, r.ratio, r.world, r.rank, r.interleave)
  {
    if cfg.world == 1 {
      LocalLenSingleRank(n, cfg.interleave);
      LocalLenSingleRank(n / cfg.ratio, cfg.interleave);
    }
  }

  lemma OneOfThemAgrees(n: int, ratio: int, world: int, rank: int, interleave: int)
    requires ratio >= 1 && ValidShard(world, rank, interleave) && (world == 1 || ratio == 1)
    ensures OrdersAgree(n, ratio, world, rank, interleave)
  {
    if world == 1 {
      LocalLenSingleRank(n, interleave);
      LocalLenSingleRank(n / ratio, interleave);
    } else {
      var l := LocalLen(n, world, rank, interleave);
      DivModUnique(n, 1, n, 0);
      DivModUnique(l, 1, l, 0);
    }
  }

  /** And so does the C128A kernel, decode or prefill, at its ratio. */
  lemma C128AAgrees(s: C128A.Step, maxModelLen: int, t: int, r: PrefillRows.RowBatch, p: int)
    requires s.Valid(maxModelLen) && 0 <= t < |s.positions| && s.slotMapping[t] >= 0
    requires r.Valid() && 0 <= p < Total(r.starts) && r.world == 1 && r.ratio == C128A.RATIO
    requires s.positions[t] == Position(r.starts, r.seqLens, p)
    ensures s.Clipped(t, maxModelLen) == r.Ke(p) - r.Ks(p)
  {
    C128A.ClipLosesNothing(s, maxModelLen, t);
  }

  /** Rank 0 of several holds one run of the first two. */
  lemma FirstRuns(world: int, interleave: int)
    requires world >= 2 && interleave >= 1
    ensures LocalLen(interleave, world, 0, interleave) == interleave
    ensures LocalLen(2 * interleave, world, 0, interleave) == interleave
  {
    LocalLenNormalForm(interleave, world, 0, interleave);
    LocalLenNormalForm(2 * interleave, world, 0, interleave);
    DivModUnique(interleave, interleave, 1, 0);
    DivModUnique(2 * interleave, interleave, 2, 0);
    DivModUnique(1, world, 0, 1);
    if world == 2 {
      DivModUnique(2, world, 1, 0);
    } else {
      DivModUnique(2, world, 0, 2);
    }
  }

  /** With several ranks and compression, rank 0 differs when `ratio` runs are complete. */
  lemma OrdersDiffer(ratio: int, world: int, interleave: int)
    requires ratio >= 2 && world >= 2 && interleave >= 1
    ensures 0 <= ratio * interleave && !OrdersAgree(ratio * interleave, ratio, world, 0, interleave)
  {
    var n := ratio * interleave;
    FirstRuns(world, interleave);
    MoreRuns(ratio, interleave, n);
    LocalLenMonotone(2 * interleave, n, world, 0, interleave);
    ShortOfRuns(LocalLen(n, world, 0, interleave), ratio, interleave, n);
  }

  lemma MoreRuns(ratio: int, interleave: int, n: int)
    requires ratio >= 2 && interleave >= 1 && n == ratio * interleave
    ensures 2 * interleave <= n && n / ratio == interleave
  {
    assert n - 2 * interleave == (ratio - 2) * interleave;
    ProductMonotone(ratio - 2, interleave, 0, 0);
    assert n == interleave * ratio;
    DivModUnique(n, ratio, interleave, 0);
  }

  lemma ShortOfRuns(l: int, ratio: int, interleave: int, n: int)
    requires ratio >= 1 && n == ratio * interleave && l < n
    ensures l / ratio < interleave
  {
    assert interleave * ratio == n;
    if l / ratio >= interleave {
      DivBound(l, ratio, interleave);
    }
  }

  ghost predicate AlwaysAgree(ratio: int, world: int, interleave: int)
    requires ratio >= 1 && world >= 1 && interleave >= 1
  {
    forall n: nat, rank :: 0 <= rank < world ==> OrdersAgree(n, ratio, world, rank, interleave)
  }

  /** Sharding and compression commute, on every rank and for every length, exactly where
      the builder admits them: with a single rank or without compression. */
  lemma ShardingCommutesIff(ratio: int, world: int, interleave: int)
    requires ratio >= 1 && world >= 1 && interleave >= 1
    ensures AlwaysAgree(ratio, world, interleave) <==> world == 1 || ratio == 1
  {
    if world == 1 || ratio == 1 {
      forall n: nat, rank | 0 <= rank < world
        ensures OrdersAgree(n, ratio, world, rank, interleave)
      {
        OneOfThemAgrees(n, ratio, world, rank, interleave);
      }
    } else {
      OrdersDiffer(ratio, world, interleave);
    }
  }

  /** They differ already for two keys on the first of two ranks at ratio 2. */
  lemma ShardingAndCompressionDoNotCommute()
    ensures LocalLen(2 / 2, 2, 0, 1) == 1 && LocalLen(2, 2, 0, 1) / 2 == 0
  {
  }
}
