/** What the decode metadata means: each row sees exactly the keys of its causal prefix on
    every path, and nothing of a builder's history shows through. */
module DecodeTheorems {
  import opened Arith
  import opened Dcp
  import opened Ragged
  import opened DecodeSpec
  import opened DecodeBuilder
  import opened Launch

  /** The request of flat row `i` is at least as long as the tokens it runs. */
  predicate LiveRow(b: Batch, i: int)
    requires ValidStarts(b.starts) && |b.seqLens| >= b.NumDecodes() && 0 <= i < Total(b.starts)
  {
    var r := ReqOf(b.starts, i);
    b.starts[r + 1] - b.starts[r] <= b.seqLens[r]
  }

  /** Where its guard admits a batch, the uniform fast path clamps at zero and the general
      path does not: they agree exactly when no request is more than one key short of
      its row count. */
  lemma UniformEqualsGeneral(cfg: Config, b: Batch)
    requires b.Valid(cfg) && b.UseUniform(cfg) && !b.UseNative(cfg)
    ensures b.GlobalLens(cfg) == b.FlatLens() <==>
            forall r :: 0 <= r < b.NumDecodes() ==> b.MaxLen() <= 0 || b.MaxLen() <= b.seqLens[r] + 1
  {
    var m, n := b.MaxLen(), b.NumDecodes();
    if r :| 0 <= r < n && m > 0 && m > b.seqLens[r] + 1 {
      UniformClamps(cfg, b, r);
    } else {
      UniformDoesNotClamp(cfg, b);
    }
  }

  lemma UniformDoesNotClamp(cfg: Config, b: Batch)
    requires b.Valid(cfg) && b.UseUniform(cfg) && !b.UseNative(cfg)
    requires forall r :: 0 <= r < b.NumDecodes() ==> b.MaxLen() <= 0 || b.MaxLen() <= b.seqLens[r] + 1
    ensures b.GlobalLens(cfg) == b.FlatLens()
  {
    forall i | 0 <= i < b.numTokens
      ensures b.RowLen(i) >= 0
    {
      UniformRowNotShort(cfg, b, i);
    }
    var g, l := b.GlobalLens(cfg), b.FlatLens();
    assert forall i :: 0 <= i < b.numTokens ==> g[i] == Max(b.RowLen(i), 0) && l[i] == b.RowLen(i);
  }

  lemma UniformRowNotShort(cfg: Config, b: Batch, i: int)
    requires b.Valid(cfg) && b.UseUniform(cfg) && 0 <= i < b.numTokens
    requires forall r :: 0 <= r < b.NumDecodes() ==> b.MaxLen() <= 0 || b.MaxLen() <= b.seqLens[r] + 1
    ensures b.RowLen(i) >= 0
  {
    UniformRow(cfg, b, i);
    var r := i / b.MaxLen();
    assert b.MaxLen() <= b.seqLens[r] + 1;
  }

  lemma UniformClamps(cfg: Config, b: Batch, r: int)
    requires b.Valid(cfg) && b.UseUniform(cfg) && !b.UseNative(cfg)
    requires 0 <= r < b.NumDecodes() && 0 < b.MaxLen() && b.seqLens[r] + 1 < b.MaxLen()
    ensures b.GlobalLens(cfg) != b.FlatLens()
  {
    var idx := FirstIndex(b.NumDecodes(), b.MaxLen(), r);
    UniformRow(cfg, b, idx);
    assert b.GlobalLens(cfg)[idx] != b.FlatLens()[idx];
  }

  lemma FirstIndex(n: int, m: int, r: int) returns (idx: int)
    requires 0 <= r < n && m > 0
    ensures 0 <= idx < n * m && idx / m == r && idx % m == 0
  {
    idx := r * m;
    MulAtLeast(n - r, m);
    assert (n - r) * m == n * m - idx;
    DivModUnique(idx, m, r, 0);
  }

  /** A padding request with two rows and no keys is where they differ. */
  lemma UniformDiffersOnEmptyPadding()
    ensures var cfg := Config(8, 1, 2, 1, 1, 0, 1, true, false, false, {});
            var b := Batch([0, 2], [0, 2], [0], [[7]], 2, false);
            && b.Valid(cfg) && b.UseUniform(cfg) && !b.UseNative(cfg)
            && b.GlobalLens(cfg) == [0, 0] && b.FlatLens() == [-1, 0]
  {
    var b := Batch([0, 2], [0, 2], [0], [[7]], 2, false);
    assert b.LensCpu() == [2];
    ReqOfUnique(b.starts, 0, 0);
    ReqOfUnique(b.starts, 1, 0);
    assert b.RowLen(0) == -1 && b.RowLen(1) == 0;
  }

  /** The device runs the same number of rows for every request. */
  predicate UniformDevice(b: Batch)
    requires |b.starts| >= 2 && |b.startsCpu| >= 2
  {
    && b.MaxLen() > 0
    && forall r :: 0 <= r < b.NumDecodes() ==> b.starts[r + 1] - b.starts[r] == b.MaxLen()
  }

  function DeviceLen(b: Batch, r: int): int
    requires 0 <= r < |b.starts| - 1
  {
    b.starts[r + 1] - b.starts[r]
  }

  /** Cell `(r, j)` of a row-major matrix with `m` columns. */
  function Cell(m: int, r: int, j: int): int { r * m + j }

  lemma CellSplits(n: int, m: int, r: int, j: int)
    requires 0 <= r < n && 0 <= j < m
    ensures 0 <= Cell(m, r, j) < n * m
    ensures Cell(m, r, j) / m == r && Cell(m, r, j) % m == j
  {
    DivModUnique(Cell(m, r, j), m, r, j);
    MulAtLeast(n - r, m);
    assert (n - r) * m == n * m - r * m;
    ProductMonotone(r, m, 0, 0);
  }

  lemma NativeCell(b: Batch, r: int, j: int)
    requires |b.starts| >= 2 && |b.startsCpu| >= 2 && |b.seqLens| >= b.NumDecodes()
    requires 0 <= r < b.NumDecodes() && 0 <= j < b.MaxLen()
    ensures 0 <= Cell(b.MaxLen(), r, j) < b.NativeSize()
    ensures b.NativeLen(Cell(b.MaxLen(), r, j)) == Max(b.seqLens[r] - b.MaxLen() + j + 1, 0)
  {
    CellSplits(b.NumDecodes(), b.MaxLen(), r, j);
  }

  lemma RequestRow(b: Batch, r: int, j: int)
    requires ValidStarts(b.starts) && |b.seqLens| >= |b.starts| - 1
    requires 0 <= r < |b.starts| - 1 && 0 <= j < DeviceLen(b, r)
    ensures 0 <= b.starts[r] + j < Total(b.starts)
    ensures b.RowLen(b.starts[r] + j) == b.seqLens[r] - DeviceLen(b, r) + j + 1
  {
    ReqOfUnique(b.starts, b.starts[r] + j, r);
  }

  /** Where the token of flat row `i` finds its length: in its own row when rows are
      flattened, in its request's row of the native matrix otherwise. */
  function Entry(cfg: Config, b: Batch, i: int): int
    requires b.Valid(cfg) && 0 <= i < Total(b.starts)
  {
    var r := ReqOf(b.starts, i);
    if b.UseNative(cfg) then Cell(b.MaxLen(), r, i - b.starts[r]) else i
  }

  /** Entry `k` is not cut off: only compressed request lengths, copied to the token
      count, can be. */
  predicate Kept(cfg: Config, b: Batch, k: int)
    requires |b.startsCpu| >= 2
  {
    b.UseNative(cfg) && cfg.nextN == 1 && cfg.ratio > 1 ==> k < b.numTokens
  }

  /** The native matrix has a column for the token. */
  predicate InMatrix(cfg: Config, b: Batch, i: int)
    requires b.Valid(cfg) && 0 <= i < Total(b.starts)
  {
    b.UseNative(cfg) ==> i - b.starts[ReqOf(b.starts, i)] < b.MaxLen()
  }

  /** On the native path the token's request runs the batch's largest number of rows. */
  predicate FullRequest(cfg: Config, b: Batch, i: int)
    requires b.Valid(cfg) && 0 <= i < Total(b.starts)
  {
    b.UseNative(cfg) ==> DeviceLen(b, ReqOf(b.starts, i)) == b.MaxLen()
  }

  lemma FlatRow(cfg: Config, b: Batch, i: int)
    requires b.Valid(cfg) && !b.UseNative(cfg) && 0 <= i < Total(b.starts)
    ensures i < |b.GlobalLens(cfg)|
    ensures var n := Position(b.starts, b.seqLens, i) + 1;
            b.GlobalLens(cfg)[i] == if b.UseUniform(cfg) then Max(n, 0) else n
  {
    assert b.RowLen(i) == Position(b.starts, b.seqLens, i) + 1;
  }

  lemma NativeEntry(cfg: Config, b: Batch, r: int, j: int)
    requires b.Valid(cfg) && b.UseNative(cfg) && 0 <= r < b.NumDecodes() && 0 <= j < b.MaxLen()
    ensures 0 <= Cell(b.MaxLen(), r, j) < |b.GlobalLens(cfg)|
    ensures b.GlobalLens(cfg)[Cell(b.MaxLen(), r, j)] ==
            if cfg.nextN > 1 then Max(b.seqLens[r] - b.MaxLen() + j + 1, 0) else b.seqLens[r]
  {
    NativeCell(b, r, j);
    var k := Cell(b.MaxLen(), r, j);
    if cfg.nextN > 1 {
      assert b.GlobalLens(cfg)[k] == b.NativeLen(k);
    } else {
      OnlyColumn(b.MaxLen(), r, j);
      assert b.GlobalLens(cfg)[r] == b.seqLens[r];
    }
  }

  lemma OnlyColumn(m: int, r: int, j: int)
    requires 0 <= j < m <= 1
    ensures Cell(m, r, j) == r
  {
  }

  /** Before sharding and compression a live token's entry is its causal length exactly
      when its request is full. */
  lemma GlobalRowIff(cfg: Config, b: Batch, i: int)
    requires b.Valid(cfg) && 0 <= i < Total(b.starts) && LiveRow(b, i) && InMatrix(cfg, b, i)
    ensures 0 <= Entry(cfg, b, i) < |b.GlobalLens(cfg)|
    ensures b.GlobalLens(cfg)[Entry(cfg, b, i)] == Position(b.starts, b.seqLens, i) + 1 <==> FullRequest(cfg, b, i)
  {
    assert Position(b.starts, b.seqLens, i) >= 0;
    if b.UseNative(cfg) {
      var r := ReqOf(b.starts, i);
      var j, k := i - b.starts[r], Entry(cfg, b, i);
      NativeEntry(cfg, b, r, j);
      assert k == Cell(b.MaxLen(), r, j);
      assert Position(b.starts, b.seqLens, i) + 1 == b.seqLens[r] - DeviceLen(b, r) + j + 1;
    } else {
      FlatRow(cfg, b, i);
    }
  }

  lemma EmptyGlobalRow(cfg: Config, b: Batch, i: int)
    requires b.Valid(cfg) && (b.UseNative(cfg) || b.UseUniform(cfg)) && 0 <= i < Total(b.starts)
    requires InMatrix(cfg, b, i) && b.seqLens[ReqOf(b.starts, i)] == 0
    ensures 0 <= Entry(cfg, b, i) < |b.GlobalLens(cfg)| && b.GlobalLens(cfg)[Entry(cfg, b, i)] == 0
  {
    if b.UseNative(cfg) {
      var r := ReqOf(b.starts, i);
      var j, k := i - b.starts[r], Entry(cfg, b, i);
      NativeEntry(cfg, b, r, j);
      assert k == Cell(b.MaxLen(), r, j);
    } else {
      FlatRow(cfg, b, i);
    }
  }

  /** If the device runs equally many rows everywhere, entries are flat rows. */
  lemma UniformEntry(cfg: Config, b: Batch, i: int)
    requires b.Valid(cfg) && UniformDevice(b) && 0 <= i < Total(b.starts)
    ensures Entry(cfg, b, i) == i && Kept(cfg, b, i) && InMatrix(cfg, b, i) && FullRequest(cfg, b, i)
  {
    var r, m := ReqOf(b.starts, i), b.MaxLen();
    assert DeviceLen(b, r) == m;
    UniformStarts(b.starts, m, r);
    CellOfRow(m, r, b.starts[r], i);
  }

  lemma CellOfRow(m: int, r: int, start: int, i: int)
    requires start == r * m
    ensures Cell(m, r, i - start) == i
  {
  }

  lemma FinalRow(cfg: Config, b: Batch, i: int)
    requires b.Valid(cfg) && 0 <= i < |b.GlobalLens(cfg)| && Kept(cfg, b, i)
    ensures i < |b.FinalLens(cfg)| && b.FinalLens(cfg)[i] == b.Finish(cfg, b.GlobalLens(cfg)[i])
  {
    var g := b.GlobalLens(cfg);
    FinishedEntry(cfg, b, g, i);
  }

  /** One entry through sharding, compression and padding. */
  lemma FinishedEntry(cfg: Config, b: Batch, g: seq<int>, i: int)
    requires cfg.Valid() && 0 <= i < |g| && 0 <= b.numTokens
    ensures var l := Scaled(cfg, if b.dcpLocal then Sharded(cfg, g) else g);
            l[i] == b.Finish(cfg, g[i]) && (i < b.numTokens ==> Padded(l, b.numTokens)[i] == l[i])
  {
  }

  lemma ZeroStaysZero(cfg: Config, b: Batch, i: int)
    requires b.Valid(cfg) && 0 <= i < |b.GlobalLens(cfg)| && Kept(cfg, b, i) && b.GlobalLens(cfg)[i] == 0
    ensures i < |b.FinalLens(cfg)| && b.FinalLens(cfg)[i] == 0
  {
    FinalRow(cfg, b, i);
    LocalLenZero(cfg.world, cfg.rank, cfg.interleave);
    DivModUnique(0, cfg.ratio, 0, 0);
  }

  lemma PaddingRow(cfg: Config, b: Batch, i: int)
    requires b.Valid(cfg) && !b.UseNative(cfg) && Total(b.starts) <= i < b.numTokens
    ensures i < |b.FinalLens(cfg)| && b.FinalLens(cfg)[i] == 0
  {
    assert b.RowLen(i) == 0;
    ZeroStaysZero(cfg, b, i);
  }

  /** Main result on lengths: on every path (flattened, uniform, native) the entry of a live
      token is given the keys of its causal prefix that this rank holds, compressed; and
      a flattened row beyond the last token is given none. */
  lemma RowSeesItsCausalPrefix(cfg: Config, b: Batch, i: int)
    requires b.Valid(cfg) && 0 <= i < b.numTokens
    requires i < Total(b.starts) ==>
               LiveRow(b, i) && FullRequest(cfg, b, i) && Kept(cfg, b, Entry(cfg, b, i))
    ensures i < Total(b.starts) ==>
              && 0 <= Entry(cfg, b, i) < |b.FinalLens(cfg)|
              && b.FinalLens(cfg)[Entry(cfg, b, i)] == b.Finish(cfg, Position(b.starts, b.seqLens, i) + 1)
    ensures Total(b.starts) <= i && !b.UseNative(cfg) ==> i < |b.FinalLens(cfg)| && b.FinalLens(cfg)[i] == 0
  {
    if i < Total(b.starts) {
      GlobalRowIff(cfg, b, i);
      FinalRow(cfg, b, Entry(cfg, b, i));
    } else if !b.UseNative(cfg) {
      PaddingRow(cfg, b, i);
    }
  }

  /** On the two clamping paths the rows of a padding request without keys see nothing. */
  lemma EmptyRequestSeesNothing(cfg: Config, b: Batch, i: int)
    requires b.Valid(cfg) && (b.UseNative(cfg) || b.UseUniform(cfg)) && 0 <= i < Total(b.starts)
    requires InMatrix(cfg, b, i) && Kept(cfg, b, Entry(cfg, b, i)) && b.seqLens[ReqOf(b.starts, i)] == 0
    ensures 0 <= Entry(cfg, b, i) < |b.FinalLens(cfg)| && b.FinalLens(cfg)[Entry(cfg, b, i)] == 0
  {
    EmptyGlobalRow(cfg, b, i);
    ZeroStaysZero(cfg, b, Entry(cfg, b, i));
  }

  /** A row of positive length always shows its own request's block-table row. */
  lemma PositiveRowsAreFresh(d: Builder, md: Metadata, b: Batch, i: int)
    requires d.Describes(md, b) && !b.UseNative(d.cfg) && 0 <= i < b.numTokens
    requires b.FinalLens(d.cfg)[i] > 0
    ensures i < Total(b.starts) && d.RowIs(i, b.table[ReqOf(b.starts, i)])
  {
    if Total(b.starts) <= i {
      PaddingRow(d.cfg, b, i);
    }
  }

  /** No padding row shares its id with a request or with another padding row. */
  lemma PaddingIdsAreFresh(b: Batch, i: int, j: int)
    requires ValidStarts(b.starts) && Total(b.starts) <= i < b.numTokens && 0 <= j < b.numTokens
    ensures b.RowIds()[i] == b.RowIds()[j] <==> i == j
  {
    if j < Total(b.starts) {
      assert b.RowIds()[j] < b.NumDecodes();
    }
  }

  /** A build: a batch and the order its kernel programs run in. */
  datatype Build = Build(batch: Batch, order: seq<int>)
  {
    predicate Valid(cfg: Config) { batch.Valid(cfg) && IsOrder(order, batch.numTokens) }
  }

  ghost predicate AllValid(history: seq<Build>, cfg: Config) {
    forall k :: 0 <= k < |history| ==> history[k].Valid(cfg)
  }

  /** Any run of builds on one builder. */
  method RunBuilds(d: Builder, history: seq<Build>, last: Build, seqLens: array<int>) returns (md: Metadata)
    requires d.Valid() && last.Valid(d.cfg) && d.Foreign(seqLens) && seqLens[..] == last.batch.seqLens
    requires AllValid(history, d.cfg)
    modifies d.decodeLens, d.decodeSeqLens, d.globalSeqLens, d.decodeIndices, d.expandedSeqLens, d.blockRows
    ensures d.Describes(md, last.batch) && seqLens[..] == last.batch.seqLens
  {
    for k := 0 to |history| {
      var s := history[k].batch.seqLens;
      var tensor := new int[|s|](i requires 0 <= i < |s| => s[i]);
      assert tensor[..] == s;
      var _ := d.BuildDecode(history[k].batch, tensor, history[k].order);
    }
    md := d.BuildDecode(last.batch, seqLens, last.order);
  }

  /** The same on a builder of its own. */
  method FreshRun(cfg: Config, history: seq<Build>, last: Build) returns (d: Builder, md: Metadata)
    requires last.Valid(cfg) && AllValid(history, cfg)
    ensures d.cfg == cfg && d.Describes(md, last.batch)
  {
    d := new Builder(cfg);
    var s := last.batch.seqLens;
    var tensor := new int[|s|](i requires 0 <= i < |s| => s[i]);
    assert tensor[..] == s;
    md := RunBuilds(d, history, last, tensor);
  }

  /** Main result on history: two builders of the same configuration, after any two runs
      of builds, hand out the same readable metadata for the same last batch, whatever
      order the programs run in. */
  method HistoryDoesNotMatter(cfg: Config, h1: seq<Build>, h2: seq<Build>, last: Batch,
                              order1: seq<int>, order2: seq<int>)
    returns (d1: Builder, d2: Builder, m1: Metadata, m2: Metadata)
    requires last.Valid(cfg) && IsOrder(order1, last.numTokens) && IsOrder(order2, last.numTokens)
    requires AllValid(h1, cfg) && AllValid(h2, cfg)
    ensures d1.cfg == d2.cfg == cfg && d1.Describes(m1, last) && d2.Describes(m2, last)
    ensures m1.seqLens.buf[..m1.seqLens.len] == m2.seqLens.buf[..m2.seqLens.len]
    ensures m1.decodeLens.buf[..m1.decodeLens.len] == m2.decodeLens.buf[..m2.decodeLens.len]
    ensures m1.table == m2.table && m1.requiresPadding == m2.requiresPadding && m1.batchSize == m2.batchSize
    ensures m1.indices.Some? == m2.indices.Some? == cfg.supportsVarlen
    ensures cfg.supportsVarlen ==>
              m1.indices.value.buf[..m1.indices.value.len] == m2.indices.value.buf[..m2.indices.value.len]
    ensures m1.globalLens.Some? == m2.globalLens.Some? == last.dcpLocal
    ensures last.dcpLocal ==>
              m1.globalLens.value.buf[..m1.globalLens.value.len] == m2.globalLens.value.buf[..m2.globalLens.value.len]
    ensures !last.UseNative(cfg) ==>
              forall i {:trigger ReqOf(last.starts, i)} :: 0 <= i < Total(last.starts) ==>
                d1.RowIs(i, last.table[ReqOf(last.starts, i)]) && d2.RowIs(i, last.table[ReqOf(last.starts, i)])
  {
    d1, m1 := FreshRun(cfg, h1, Build(last, order1));
    d2, m2 := FreshRun(cfg, h2, Build(last, order2));
  }
}
