/** The decode metadata read back entry by entry, in terms of the batch's own tensors: query
    offsets, sequence lengths and block table. */
module DecodeMeaning {
  import opened Arith
  import opened Dcp
  import opened Ragged
  import opened Options
  import opened DecodeSpec
  import opened DecodeBuilder
  import opened DecodeTheorems

  // Which path a batch takes, by its host query lengths.

  function HostLen(b: Batch, r: int): int
    requires 0 <= r < |b.startsCpu| - 1
  {
    b.startsCpu[r + 1] - b.startsCpu[r]
  }

  /** `m` is the largest host query length. */
  ghost predicate LargestHostLen(b: Batch, m: int)
    requires |b.startsCpu| >= 2
  {
    && (forall r :: 0 <= r < |b.startsCpu| - 1 ==> HostLen(b, r) <= m)
    && exists r :: 0 <= r < |b.startsCpu| - 1 && HostLen(b, r) == m
  }

  ghost predicate EqualHostLens(b: Batch, m: int)
    requires |b.startsCpu| >= 2
  {
    forall r :: 0 <= r < |b.startsCpu| - 1 ==> HostLen(b, r) == m
  }

  lemma LargestOf(l: seq<int>, m: int)
    requires m in l && forall i :: 0 <= i < |l| ==> l[i] <= m
    ensures MaxOf(l) == m
    ensures MinOf(l) == m <==> forall i :: 0 <= i < |l| ==> l[i] == m
  {
  }

  lemma HostLens(b: Batch, m: int)
    requires |b.startsCpu| >= 2 && LargestHostLen(b, m)
    ensures b.MaxLen() == m
    ensures MinOf(b.LensCpu()) == m <==> EqualHostLens(b, m)
  {
    var l := b.LensCpu();
    assert forall r :: 0 <= r < |l| ==> l[r] == HostLen(b, r);
    var k :| 0 <= k < |l| && HostLen(b, k) == m;
    assert l[k] == m;
    LargestOf(l, m);
  }

  /** The guards of the three paths. */
  lemma PathTaken(cfg: Config, b: Batch, m: int)
    requires |b.startsCpu| >= 2 && LargestHostLen(b, m)
    ensures b.UseNative(cfg) <==>
            !cfg.useFlattening && !cfg.supportsVarlen && m <= cfg.nextN && (m <= 1 || m in cfg.nativeDepths)
    ensures b.UseUniform(cfg) <==>
            && !cfg.supportsVarlen && (|b.starts| == 2 || !cfg.adaptive)
            && EqualHostLens(b, m) && (|b.starts| - 1) * m == b.numTokens
  {
    HostLens(b, m);
  }

  /** Native lengths are packed exactly when the host lengths differ. */
  lemma PaddingFlag(d: Builder, md: Metadata, b: Batch, m: int)
    requires d.Describes(md, b) && LargestHostLen(b, m)
    ensures md.requiresPadding <==> b.UseNative(d.cfg) && !EqualHostLens(b, m)
  {
    HostLens(b, m);
  }

  // What is left of a length.

  /** `l` is what this rank keeps of `n` keys, compressed. */
  ghost predicate Remains(cfg: Config, b: Batch, n: int, l: int)
    requires cfg.Valid()
  {
    && (!b.dcpLocal ==> l == n / cfg.ratio)
    && (b.dcpLocal && n >= 0 ==> l == |OwnedKeys(n, cfg.world, cfg.rank, cfg.interleave)| / cfg.ratio)
  }

  lemma FinishRemains(cfg: Config, b: Batch, n: int)
    requires cfg.Valid()
    ensures Remains(cfg, b, n, b.Finish(cfg, n))
  {
    if n >= 0 {
      LocalLenCountsOwnedKeys(n, cfg.world, cfg.rank, cfg.interleave);
    }
  }

  /** Entry `k` of the handed-out lengths, from the global length in its place. */
  lemma EntryRemains(d: Builder, md: Metadata, b: Batch, k: int, n: int)
    requires d.Describes(md, b) && 0 <= k < |b.GlobalLens(d.cfg)| && Kept(d.cfg, b, k)
    requires n == b.GlobalLens(d.cfg)[k]
    ensures k < md.seqLens.len == |b.FinalLens(d.cfg)| <= md.seqLens.buf.Length
    ensures Remains(d.cfg, b, n, md.seqLens.buf[k])
  {
    FinalRow(d.cfg, b, k);
    FinishRemains(d.cfg, b, n);
    assert md.seqLens.buf[..md.seqLens.len][k] == md.seqLens.buf[k];
  }

  // Flattened rows.

  /** The length of token `j` of request `r`: its causal prefix, which ends with the request's
      last token at the sequence length. */
  lemma FlatLength(d: Builder, md: Metadata, b: Batch, r: int, j: int, i: int, n: int)
    requires d.Describes(md, b) && !b.UseNative(d.cfg)
    requires 0 <= r < |b.starts| - 1 && 0 <= j < b.starts[r + 1] - b.starts[r] && i == b.starts[r] + j
    requires n == CausalLen(b, r, j, b.UseUniform(d.cfg))
    ensures 0 <= i < md.seqLens.len == b.numTokens <= md.seqLens.buf.Length
    ensures Remains(d.cfg, b, n, md.seqLens.buf[i])
  {
    FlatGlobal(d.cfg, b, r, j, i, n);
    FlatEntryRemains(d, md, b, i, n);
  }

  lemma FlatEntryRemains(d: Builder, md: Metadata, b: Batch, i: int, n: int)
    requires d.Describes(md, b) && !b.UseNative(d.cfg)
    requires 0 <= i < |b.GlobalLens(d.cfg)| && n == b.GlobalLens(d.cfg)[i]
    ensures i < md.seqLens.len == b.numTokens <= md.seqLens.buf.Length
    ensures Remains(d.cfg, b, n, md.seqLens.buf[i])
  {
    FlatSize(d.cfg, b);
    EntryRemains(d, md, b, i, n);
  }

  function CausalLen(b: Batch, r: int, j: int, clamped: bool): int
    requires 0 <= r < |b.starts| - 1 && r < |b.seqLens|
  {
    var n := b.seqLens[r] - (b.starts[r + 1] - b.starts[r]) + j + 1;
    if clamped then Max(n, 0) else n
  }

  lemma FlatGlobal(cfg: Config, b: Batch, r: int, j: int, i: int, n: int)
    requires b.Valid(cfg) && !b.UseNative(cfg)
    requires 0 <= r < |b.starts| - 1 && 0 <= j < b.starts[r + 1] - b.starts[r] && i == b.starts[r] + j
    requires n == CausalLen(b, r, j, b.UseUniform(cfg))
    ensures 0 <= i < |b.GlobalLens(cfg)| && b.GlobalLens(cfg)[i] == n
  {
    PositionInRequest(b.starts, b.seqLens, r, j);
    FlatRow(cfg, b, i);
  }

  lemma FlatSize(cfg: Config, b: Batch)
    requires b.Valid(cfg) && !b.UseNative(cfg)
    ensures |b.FinalLens(cfg)| == b.numTokens
  {
  }

  /** Its decode length, block-table row and request id. */
  lemma FlatRowOfToken(d: Builder, md: Metadata, b: Batch, r: int, j: int, c: int)
    requires d.Describes(md, b) && !b.UseNative(d.cfg)
    requires 0 <= r < |b.starts| - 1 && 0 <= j < b.starts[r + 1] - b.starts[r] && 0 <= c < d.cfg.tableWidth
    ensures md.table == ExpandedTable(b.numTokens)
    ensures md.batchSize == md.decodeLens.len == b.numTokens <= md.decodeLens.buf.Length
    ensures 0 <= b.starts[r] + j < b.numTokens && md.decodeLens.buf[b.starts[r] + j] == 1
    ensures b.starts[r] + j < d.blockRows.Length0 && c < d.blockRows.Length1
    ensures d.blockRows[b.starts[r] + j, c] == b.table[r][c]
  {
    var i := b.starts[r] + j;
    ReqOfUnique(b.starts, i, r);
    assert d.RowIs(i, b.table[ReqOf(b.starts, i)]);
    assert md.decodeLens.buf[..md.decodeLens.len][i] == 1;
  }

  /** The ids name the requests, row by row. */
  lemma IdOfToken(d: Builder, md: Metadata, b: Batch, r: int, j: int)
    requires d.Describes(md, b) && d.cfg.supportsVarlen
    requires 0 <= r < |b.starts| - 1 && 0 <= j < b.starts[r + 1] - b.starts[r]
    ensures md.indices.Some? && md.indices.value.len == b.numTokens <= md.indices.value.buf.Length
    ensures 0 <= b.starts[r] + j < b.numTokens && md.indices.value.buf[b.starts[r] + j] == r
  {
    var i, v := b.starts[r] + j, md.indices.value;
    ReqOfUnique(b.starts, i, r);
    assert v.buf[..v.len][i] == b.RowIds()[i];
  }

  /** Rows past the last token: no keys, ... */
  lemma PaddingLength(d: Builder, md: Metadata, b: Batch, i: int)
    requires d.Describes(md, b) && !b.UseNative(d.cfg) && b.starts[|b.starts| - 1] <= i < b.numTokens
    ensures i < md.seqLens.len <= md.seqLens.buf.Length && md.seqLens.buf[i] == 0
  {
    PaddingRow(d.cfg, b, i);
    assert md.seqLens.buf[..md.seqLens.len][i] == md.seqLens.buf[i];
  }

  /** ... a decode length of one, a cleared first block, ... */
  lemma PaddingBlock(d: Builder, md: Metadata, b: Batch, i: int)
    requires d.Describes(md, b) && !b.UseNative(d.cfg) && b.starts[|b.starts| - 1] <= i < b.numTokens
    ensures i < md.decodeLens.len <= md.decodeLens.buf.Length && md.decodeLens.buf[i] == 1
    ensures i < d.blockRows.Length0 && 0 < d.blockRows.Length1 && d.blockRows[i, 0] == 0
  {
    assert d.Cleared(i);
    assert md.decodeLens.buf[..md.decodeLens.len][i] == Repeat(1, b.numTokens)[i];
    assert md.decodeLens.buf[i] == md.decodeLens.buf[..md.decodeLens.len][i];
  }

  /** ... and an id of their own. */
  lemma PaddingId(d: Builder, md: Metadata, b: Batch, i: int)
    requires d.Describes(md, b) && d.cfg.supportsVarlen && b.starts[|b.starts| - 1] <= i < b.numTokens
    ensures md.indices.Some? && i < md.indices.value.len <= md.indices.value.buf.Length
    ensures md.indices.value.buf[i] == |b.starts| - 1 + (i - b.starts[|b.starts| - 1])
  {
    var v := md.indices.value;
    assert v.buf[..v.len][i] == b.RowIds()[i];
  }

  // The native path.

  lemma NativeTables(d: Builder, md: Metadata, b: Batch, r: int)
    requires d.Describes(md, b) && b.UseNative(d.cfg) && 0 <= r < |b.starts| - 1
    ensures md.table == CallerTable(b.table)
    ensures md.batchSize == md.decodeLens.len == |b.starts| - 1 <= md.decodeLens.buf.Length
    ensures md.decodeLens.buf[r] == b.starts[r + 1] - b.starts[r]
  {
    assert md.decodeLens.buf[..md.decodeLens.len][r] == Diffs(b.starts)[r];
  }

  /** Several drafts: row-major lengths, the last column at the sequence length. */
  lemma NativeLength(d: Builder, md: Metadata, b: Batch, m: int, r: int, j: int, k: int)
    requires d.Describes(md, b) && b.UseNative(d.cfg) && d.cfg.nextN > 1 && LargestHostLen(b, m)
    requires 0 <= r < |b.starts| - 1 && 0 <= j < m && k == r * m + j
    ensures 0 <= k < md.seqLens.len <= md.seqLens.buf.Length
    ensures Remains(d.cfg, b, Max(b.seqLens[r] - m + j + 1, 0), md.seqLens.buf[k])
  {
    NativeEntryAt(d.cfg, b, m, r, j, k);
    EntryRemains(d, md, b, k, Max(b.seqLens[r] - m + j + 1, 0));
  }

  lemma NativeEntryAt(cfg: Config, b: Batch, m: int, r: int, j: int, k: int)
    requires b.Valid(cfg) && b.UseNative(cfg) && cfg.nextN > 1 && LargestHostLen(b, m)
    requires 0 <= r < |b.starts| - 1 && 0 <= j < m && k == r * m + j
    ensures 0 <= k < |b.GlobalLens(cfg)| && b.GlobalLens(cfg)[k] == Max(b.seqLens[r] - m + j + 1, 0)
  {
    HostLens(b, m);
    NativeEntry(cfg, b, r, j);
    assert Cell(m, r, j) == k;
  }

  /** Single-token steps hand on the request lengths, as many as there are requests, or with
      compression as many as there are tokens, padded with zeros. */
  lemma NativeSingle(d: Builder, md: Metadata, b: Batch, k: int)
    requires d.Describes(md, b) && b.UseNative(d.cfg) && d.cfg.nextN == 1 && 0 <= k < md.seqLens.len
    ensures md.seqLens.len == if d.cfg.ratio > 1 then b.numTokens else |b.starts| - 1
    ensures md.seqLens.len <= md.seqLens.buf.Length
    ensures k < |b.starts| - 1 ==> Remains(d.cfg, b, b.seqLens[k], md.seqLens.buf[k])
    ensures k >= |b.starts| - 1 ==> md.seqLens.buf[k] == 0
  {
    assert b.GlobalLens(d.cfg) == b.seqLens[..|b.starts| - 1];
    if k < |b.starts| - 1 {
      EntryRemains(d, md, b, k, b.seqLens[k]);
    } else {
      assert md.seqLens.buf[..md.seqLens.len][k] == b.FinalLens(d.cfg)[k];
    }
  }

  // Global lengths under context parallelism.

  /** On the native path, and when no host length exceeds one: the request lengths. */
  lemma GlobalOfRequest(d: Builder, md: Metadata, b: Batch, m: int, r: int)
    requires d.Describes(md, b) && b.dcpLocal && LargestHostLen(b, m) && (b.UseNative(d.cfg) || m <= 1)
    requires 0 <= r < |b.starts| - 1
    ensures md.globalLens.Some? && md.globalLens.value.len == |b.starts| - 1 <= md.globalLens.value.buf.Length
    ensures md.globalLens.value.buf[r] == b.seqLens[r]
  {
    HostLens(b, m);
    var v := md.globalLens.value;
    assert v.buf[..v.len][r] == b.GlobalRows(d.cfg)[r];
  }

  /** Otherwise one per token, before sharding and compression, and zero past the last. */
  lemma GlobalOfToken(d: Builder, md: Metadata, b: Batch, m: int, r: int, j: int, i: int)
    requires d.Describes(md, b) && b.dcpLocal && LargestHostLen(b, m) && !b.UseNative(d.cfg) && m > 1
    requires 0 <= r < |b.starts| - 1 && 0 <= j < b.starts[r + 1] - b.starts[r] && i == b.starts[r] + j
    ensures md.globalLens.Some? && 0 <= i < md.globalLens.value.len == b.numTokens <= md.globalLens.value.buf.Length
    ensures md.globalLens.value.buf[i] == b.seqLens[r] - (b.starts[r + 1] - b.starts[r]) + j + 1
  {
    RowLenOf(b, r, j, i);
    GlobalOfRow(d, md, b, m, i);
  }

  lemma RowLenOf(b: Batch, r: int, j: int, i: int)
    requires ValidStarts(b.starts) && |b.seqLens| >= |b.starts| - 1
    requires 0 <= r < |b.starts| - 1 && 0 <= j < b.starts[r + 1] - b.starts[r] && i == b.starts[r] + j
    ensures 0 <= i < Total(b.starts) && b.RowLen(i) == b.seqLens[r] - (b.starts[r + 1] - b.starts[r]) + j + 1
  {
    RequestRow(b, r, j);
  }

  lemma GlobalOfRow(d: Builder, md: Metadata, b: Batch, m: int, i: int)
    requires d.Describes(md, b) && b.dcpLocal && LargestHostLen(b, m) && !b.UseNative(d.cfg) && m > 1
    requires 0 <= i < b.numTokens
    ensures md.globalLens.Some? && md.globalLens.value.len == b.numTokens <= md.globalLens.value.buf.Length
    ensures md.globalLens.value.buf[i] == b.RowLen(i)
  {
    HostLens(b, m);
    var v := md.globalLens.value;
    assert b.GlobalRows(d.cfg) == b.FlatLens();
    assert v.buf[..v.len][i] == b.FlatLens()[i];
  }

  lemma GlobalOfPadding(d: Builder, md: Metadata, b: Batch, m: int, i: int)
    requires d.Describes(md, b) && b.dcpLocal && LargestHostLen(b, m) && !b.UseNative(d.cfg) && m > 1
    requires b.starts[|b.starts| - 1] <= i < b.numTokens
    ensures md.globalLens.Some? && i < md.globalLens.value.len <= md.globalLens.value.buf.Length
    ensures md.globalLens.value.buf[i] == 0
  {
    GlobalOfRow(d, md, b, m, i);
  }
}
