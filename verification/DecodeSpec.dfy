/** What the indexer's decode metadata has to say about a batch, independent of how the
    builder computes it and of what its buffers held before. */
module DecodeSpec {
  import opened Arith
  import opened Dcp
  import opened Ragged

  datatype Config = Config(maxTokens: nat, tableWidth: nat, nextN: int, ratio: int,
                           world: int, rank: int, interleave: int,
                           useFlattening: bool, supportsVarlen: bool, adaptive: bool,
                           nativeDepths: set<int>)
  {
    predicate Valid() {
      nextN >= 1 && ratio >= 1 && tableWidth >= 1 && ValidShard(world, rank, interleave)
    }
  }

  function MaxOf(s: seq<int>): (m: int)
    requires s != []
    ensures m in s && forall i :: 0 <= i < |s| ==> s[i] <= m
  {
    if |s| == 1 then s[0] else Max(MaxOf(s[..|s| - 1]), s[|s| - 1])
  }

  function MinOf(s: seq<int>): (m: int)
    requires s != []
    ensures m in s && forall i :: 0 <= i < |s| ==> m <= s[i]
  {
    if |s| == 1 then s[0] else Min(MinOf(s[..|s| - 1]), s[|s| - 1])
  }

  /** The decode part of one step.  `starts` are the device's query offsets, `startsCpu`
      the host's: under adaptive verification they may differ request by request, but
      not in their total.  `numTokens` may exceed the total by graph padding. */
  datatype Batch = Batch(starts: seq<int>, startsCpu: seq<int>, seqLens: seq<int>,
                         table: seq<seq<int>>, numTokens: int, dcpLocal: bool)
  {
    function NumDecodes(): int { |starts| - 1 }

    predicate Valid(cfg: Config) {
      && cfg.Valid() && |starts| >= 2 && |startsCpu| == |starts|
      && ValidStarts(starts) && ValidStarts(startsCpu)
      && Total(starts) == Total(startsCpu) && (!cfg.adaptive ==> starts == startsCpu)
      && Total(starts) <= numTokens <= cfg.maxTokens && NumDecodes() <= cfg.maxTokens
      && |seqLens| >= NumDecodes() && |table| == NumDecodes()
      && (forall b :: 0 <= b < |table| ==> |table[b]| == cfg.tableWidth)
      && (UseNative(cfg) ==> NativeSize() <= cfg.maxTokens)
    }

    function LensCpu(): (l: seq<int>)
      requires |startsCpu| >= 2
      ensures l != []
    {
      Diffs(startsCpu)
    }

    function MaxLen(): int
      requires |startsCpu| >= 2
    {
      MaxOf(LensCpu())
    }

    /** The per-step choice of the native kernels. */
    predicate UseNative(cfg: Config)
      requires |startsCpu| >= 2
    {
      && !(cfg.useFlattening || cfg.supportsVarlen)
      && MaxLen() <= cfg.nextN
      && (MaxLen() <= 1 || MaxLen() in cfg.nativeDepths)
    }

    /** The guard of the uniform fast path. */
    predicate UseUniform(cfg: Config)
      requires |startsCpu| >= 2
    {
      && !cfg.supportsVarlen
      && (NumDecodes() == 1 || !cfg.adaptive)
      && MinOf(LensCpu()) == MaxLen()
      && NumDecodes() * MaxLen() == numTokens
    }

    /** Keys visible to flat row `i`, by its own causal position; padding sees nothing. */
    function RowLen(i: int): int
      requires ValidStarts(starts) && |seqLens| >= |starts| - 1 && 0 <= i
    {
      if i < Total(starts) then Position(starts, seqLens, i) + 1 else 0
    }

    /** Per-row global lengths, before sharding and compression. */
    function GlobalLens(cfg: Config): seq<int>
      requires Valid(cfg)
    {
      if UseNative(cfg) then
        if cfg.nextN > 1 then NativeLens() else seqLens[..NumDecodes()]
      else if UseUniform(cfg) then
        seq(numTokens, i requires 0 <= i < numTokens => Max(RowLen(i), 0))
      else
        FlatLens()
    }

    function FlatLens(): (l: seq<int>)
      requires ValidStarts(starts) && |seqLens| >= |starts| - 1 && 0 <= numTokens
      ensures |l| == numTokens
    {
      seq(numTokens, i requires 0 <= i < numTokens => RowLen(i))
    }

    /** Row-major `(requests, MaxLen)` lengths of the native kernels. */
    function NativeSize(): (n: int)
      requires |starts| >= 2 && |startsCpu| >= 2
      ensures n >= 0
    {
      if MaxLen() <= 0 then 0 else MulAtLeast(NumDecodes(), MaxLen()); NumDecodes() * MaxLen()
    }

    function NativeLen(k: int): int
      requires |starts| >= 2 && |startsCpu| >= 2 && |seqLens| >= NumDecodes() && 0 <= k < NativeSize()
    {
      var m := MaxLen();
      RowInRange(k, NumDecodes(), m);
      Max(seqLens[k / m] - m + 1 + k % m, 0)
    }

    function NativeLens(): (l: seq<int>)
      requires |starts| >= 2 && |startsCpu| >= 2 && |seqLens| >= NumDecodes()
      ensures |l| == NativeSize()
    {
      seq(NativeSize(), k requires 0 <= k < NativeSize() => NativeLen(k))
    }

    /** What is left of `n` keys on this rank, in compressed keys. */
    function Finish(cfg: Config, n: int): int
      requires cfg.Valid()
    {
      (if dcpLocal then LocalLen(n, cfg.world, cfg.rank, cfg.interleave) else n) / cfg.ratio
    }

    /** The lengths the kernels read.  Single-token native steps with compression are
        the one case whose rows are padded to the token count. */
    function FinalLens(cfg: Config): seq<int>
      requires Valid(cfg)
    {
      var g := if dcpLocal then Sharded(cfg, GlobalLens(cfg)) else GlobalLens(cfg);
      if UseNative(cfg) && cfg.nextN == 1 && cfg.ratio > 1 then Padded(Scaled(cfg, g), numTokens) else Scaled(cfg, g)
    }

    /** Request ids of the flat rows; padding rows get fresh ids. */
    function RowIds(): seq<int>
      requires ValidStarts(starts) && 0 <= numTokens
    {
      seq(numTokens, i requires 0 <= i < numTokens =>
        if i < Total(starts) then ReqOf(starts, i) else NumDecodes() + i - Total(starts))
    }

    /** Global lengths handed on under context parallelism. */
    function GlobalRows(cfg: Config): seq<int>
      requires Valid(cfg)
    {
      if UseNative(cfg) || MaxLen() <= 1 then seqLens[..NumDecodes()] else FlatLens()
    }
  }

  function Sharded(cfg: Config, g: seq<int>): (l: seq<int>)
    requires cfg.Valid()
    ensures |l| == |g|
  {
    seq(|g|, i requires 0 <= i < |g| => LocalLen(g[i], cfg.world, cfg.rank, cfg.interleave))
  }

  function Scaled(cfg: Config, g: seq<int>): (l: seq<int>)
    requires cfg.Valid()
    ensures |l| == |g|
  {
    seq(|g|, i requires 0 <= i < |g| => g[i] / cfg.ratio)
  }

  function Padded(g: seq<int>, n: nat): (l: seq<int>)
    ensures |l| == n
  {
    seq(n, i requires 0 <= i < n => if i < |g| then g[i] else 0)
  }

  lemma RowInRange(k: int, n: int, m: int)
    requires m > 0 && 0 <= k < n * m
    ensures 0 <= k / m < n
  {
    DivAtLeast(k, m, 0);
    DivBound(k, m, k / m);
    assert (n - k / m) * m > 0;
    MulAtLeast(n - k / m, m);
  }

  lemma {:induction false} UniformStarts(starts: seq<int>, m: int, b: int)
    requires ValidStarts(starts) && 0 <= b < |starts|
    requires forall i :: 0 <= i < |starts| - 1 ==> starts[i + 1] - starts[i] == m
    ensures starts[b] == b * m
  {
    if b > 0 {
      UniformStarts(starts, m, b - 1);
      assert starts[b - 1 + 1] - starts[b - 1] == m;
    }
  }

  lemma UniformDiffs(starts: seq<int>, m: int)
    requires |starts| >= 2 && MinOf(Diffs(starts)) == MaxOf(Diffs(starts)) == m
    ensures forall i :: 0 <= i < |starts| - 1 ==> starts[i + 1] - starts[i] == m
  {
    forall i | 0 <= i < |starts| - 1
      ensures starts[i + 1] - starts[i] == m
    {
      assert Diffs(starts)[i] == starts[i + 1] - starts[i];
    }
  }

  lemma OneRequest(starts: seq<int>, startsCpu: seq<int>)
    requires |starts| == |startsCpu| == 2 && ValidStarts(starts) && ValidStarts(startsCpu)
    requires Total(starts) == Total(startsCpu)
    ensures starts == startsCpu
  {
  }

  /** The uniform guard admits only batches whose device lengths are uniform too. */
  lemma UniformOnDevice(cfg: Config, b: Batch)
    requires b.Valid(cfg) && b.UseUniform(cfg)
    ensures forall i :: 0 <= i < b.NumDecodes() ==> b.starts[i + 1] - b.starts[i] == b.MaxLen()
    ensures Total(b.starts) == b.numTokens
  {
    var m, n := b.MaxLen(), b.NumDecodes();
    if n == 1 {
      OneRequest(b.starts, b.startsCpu);
    }
    UniformDiffs(b.starts, m);
    UniformStarts(b.starts, m, n);
  }

  lemma PositiveFactor(n: int, m: int, k: int)
    requires 0 <= k < n * m && 0 <= n
    ensures m > 0
  {
  }

  lemma UniformReqOf(starts: seq<int>, seqLens: seq<int>, n: int, m: int, idx: int)
    requires |seqLens| >= n && ValidStarts(starts) && |starts| == n + 1 && m > 0 && 0 <= idx < n * m
    requires forall i :: 0 <= i < n ==> starts[i + 1] - starts[i] == m
    ensures 0 <= idx / m < n
    ensures 0 <= idx < Total(starts) && ReqOf(starts, idx) == idx / m
    ensures Position(starts, seqLens, idx) == seqLens[idx / m] - m + idx % m
  {
    RowInRange(idx, n, m);
    var r := idx / m;
    assert idx == r * m + idx % m;
    UniformStarts(starts, m, r);
    assert starts[r + 1] - starts[r] == m;
    ReqOfUnique(starts, idx, r);
  }

  /** Row `idx` of a uniform batch is query `idx % m` of request `idx / m`. */
  lemma UniformRow(cfg: Config, b: Batch, idx: int)
    requires b.Valid(cfg) && b.UseUniform(cfg) && 0 <= idx < b.numTokens
    ensures b.MaxLen() > 0 && 0 <= idx / b.MaxLen() < b.NumDecodes()
    ensures idx < Total(b.starts) && ReqOf(b.starts, idx) == idx / b.MaxLen()
    ensures b.RowLen(idx) == b.seqLens[idx / b.MaxLen()] - b.MaxLen() + idx % b.MaxLen() + 1
  {
    UniformOnDevice(cfg, b);
    var m, n := b.MaxLen(), b.NumDecodes();
    PositiveFactor(n, m, idx);
    UniformReqOf(b.starts, b.seqLens, n, m, idx);
  }
}
