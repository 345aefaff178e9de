/** How far the decode metadata describes its rows: native cells of requests with fewer rows,
    global lengths handed on at request level, and lengths below zero. */
module DecodeLimits {
  import opened Arith
  import opened Dcp
  import opened Ragged
  import opened DecodeSpec
  import opened DecodeTheorems

  // Native cells.

  /** The native kernels' cell `(r, j)` gives a live request's token `j` its causal length
      exactly when the request runs the batch's largest number of rows. */
  lemma NativeCellIsCausalIff(b: Batch, r: int, j: int)
    requires |b.starts| >= 2 && |b.startsCpu| >= 2 && ValidStarts(b.starts) && |b.seqLens| >= b.NumDecodes()
    requires 0 <= r < b.NumDecodes() && 0 <= j < b.MaxLen() && j < DeviceLen(b, r) <= b.seqLens[r]
    ensures 0 <= Cell(b.MaxLen(), r, j) < b.NativeSize() && 0 <= b.starts[r] + j < Total(b.starts)
    ensures b.NativeLen(Cell(b.MaxLen(), r, j)) == b.RowLen(b.starts[r] + j) <==> DeviceLen(b, r) == b.MaxLen()
  {
    NativeCell(b, r, j);
    RequestRow(b, r, j);
  }

  /** Two rows beside one: the cell of the single row holds 4 instead of 5. */
  lemma NativeCellMismatch()
    ensures var cfg := Config(8, 1, 2, 1, 1, 0, 1, false, false, false, {2});
            var b := Batch([0, 2, 3], [0, 2, 3], [5, 5], [[7], [8]], 3, false);
            && b.Valid(cfg) && b.UseNative(cfg) && b.MaxLen() == 2
            && b.GlobalLens(cfg)[Cell(2, 1, 0)] == 4 && b.RowLen(2) == 5
  {
    var b := Batch([0, 2, 3], [0, 2, 3], [5, 5], [[7], [8]], 3, false);
    assert b.LensCpu() == [2, 1];
    assert b.MaxLen() == 2;
    NativeCell(b, 1, 0);
    RequestRow(b, 1, 0);
  }

  // Global lengths of flattened rows.

  /** The global length handed on in place `i` is that of flat row `i`. */
  ghost predicate RowDescribed(cfg: Config, b: Batch, i: int)
    requires b.Valid(cfg) && 0 <= i
  {
    i < |b.GlobalRows(cfg)| && b.GlobalRows(cfg)[i] == b.RowLen(i)
  }

  ghost predicate RowsDescribed(cfg: Config, b: Batch)
    requires b.Valid(cfg)
  {
    forall i :: 0 <= i < Total(b.starts) ==> RowDescribed(cfg, b, i)
  }

  /** Sequence lengths that make every request of the batch live. */
  predicate LiveLens(b: Batch, s: seq<int>) {
    |s| >= |b.starts| - 1 && forall r :: 0 <= r < |b.starts| - 1 ==> DeviceLen(b, r) <= s[r]
  }

  ghost predicate DescribedWith(cfg: Config, b: Batch, s: seq<int>)
    requires b.Valid(cfg)
  {
    LiveLens(b, s) ==> RowsDescribed(cfg, b.(seqLens := s))
  }

  /** On the device every row is the only row of the request with its number. */
  predicate OneRowEach(b: Batch)
    requires |b.starts| > 0
  {
    Total(b.starts) < |b.starts| && forall k :: 0 <= k <= Total(b.starts) ==> b.starts[k] == k
  }

  lemma {:induction false} ShortTotals(starts: seq<int>, k: int)
    requires ValidStarts(starts) && 0 <= k < |starts|
    requires forall i :: 0 <= i < |starts| - 1 ==> starts[i + 1] - starts[i] <= 1
    ensures starts[k] <= k
  {
    if k > 0 {
      ShortTotals(starts, k - 1);
      assert starts[k - 1 + 1] - starts[k - 1] <= 1;
    }
  }

  lemma TotalAtMostRequests(cfg: Config, b: Batch)
    requires b.Valid(cfg) && b.MaxLen() <= 1
    ensures Total(b.starts) <= b.NumDecodes()
  {
    forall i | 0 <= i < |b.startsCpu| - 1
      ensures b.startsCpu[i + 1] - b.startsCpu[i] <= 1
    {
      assert b.LensCpu()[i] == b.startsCpu[i + 1] - b.startsCpu[i];
    }
    ShortTotals(b.startsCpu, |b.startsCpu| - 1);
  }

  lemma RequestLevelRow(cfg: Config, b: Batch, i: int)
    requires b.Valid(cfg) && !b.UseNative(cfg) && b.MaxLen() <= 1 && 0 <= i < b.NumDecodes()
    ensures RowDescribed(cfg, b, i) <==> b.seqLens[i] == b.RowLen(i)
  {
  }

  lemma OneRowEachDescribes(cfg: Config, b: Batch, i: int)
    requires b.Valid(cfg) && !b.UseNative(cfg) && b.MaxLen() <= 1 && OneRowEach(b) && 0 <= i < Total(b.starts)
    ensures RowDescribed(cfg, b, i)
  {
    assert b.starts[i] == i && b.starts[i + 1] == i + 1;
    ReqOfUnique(b.starts, i, i);
    RequestLevelRow(cfg, b, i);
  }

  lemma ExpandedRowDescribed(cfg: Config, b: Batch, i: int)
    requires b.Valid(cfg) && !b.UseNative(cfg) && b.MaxLen() > 1 && 0 <= i < b.numTokens
    ensures RowDescribed(cfg, b, i)
  {
    assert b.FlatLens()[i] == b.RowLen(i);
  }

  /** The first row that is not the only row of the request with its number. */
  lemma FirstBreak(b: Batch) returns (i: int)
    requires ValidStarts(b.starts) && Total(b.starts) <= |b.starts| - 1 && !OneRowEach(b)
    ensures 0 <= i < Total(b.starts) && b.starts[i] == i && b.starts[i + 1] != i + 1
  {
    i := 0;
    while b.starts[i + 1] == i + 1
      invariant 0 <= i < Total(b.starts)
      invariant forall k :: 0 <= k <= i ==> b.starts[k] == k
      decreases Total(b.starts) - i
    {
      i := i + 1;
    }
  }

  /** Live lengths that tell request `i` from all others. */
  function Marked(b: Batch, i: int): seq<int>
    requires ValidStarts(b.starts)
  {
    seq(|b.starts| - 1, r => if r == i then 2 * Total(b.starts) + 1 else Total(b.starts))
  }

  lemma MarkedIsLive(b: Batch, i: int)
    requires ValidStarts(b.starts)
    ensures LiveLens(b, Marked(b, i))
  {
    var s := Marked(b, i);
    forall q | 0 <= q < |b.starts| - 1
      ensures DeviceLen(b, q) <= s[q]
    {
      assert 0 <= b.starts[q] && b.starts[q + 1] <= Total(b.starts);
    }
  }

  lemma MarkedRow(b: Batch, i: int)
    requires ValidStarts(b.starts) && 0 <= i < Total(b.starts) <= |b.starts| - 1
    requires b.starts[i] == i && b.starts[i + 1] != i + 1
    ensures Marked(b, i)[i] != Position(b.starts, Marked(b, i), i) + 1
  {
    var r := ReqOf(b.starts, i);
    assert 0 <= b.starts[r] && b.starts[r + 1] <= Total(b.starts);
  }

  lemma BreakShows(cfg: Config, b: Batch, i: int)
    requires b.Valid(cfg) && !b.UseNative(cfg) && b.MaxLen() <= 1
    requires 0 <= i < Total(b.starts) <= b.NumDecodes() && b.starts[i] == i && b.starts[i + 1] != i + 1
    ensures !DescribedWith(cfg, b, Marked(b, i))
  {
    var b' := b.(seqLens := Marked(b, i));
    MarkedIsLive(b, i);
    MarkedRow(b, i);
    RequestLevelRow(cfg, b', i);
    assert !RowDescribed(cfg, b', i);
  }

  /** Where rows are flattened, the global lengths describe them for all live sequence
      lengths exactly when some host length exceeds one, so that they are expanded, or
      each row is the only row of the request with its number on the device. */
  lemma GlobalRowsDescribeIff(cfg: Config, b: Batch)
    requires b.Valid(cfg) && !b.UseNative(cfg)
    ensures (forall s: seq<int> :: DescribedWith(cfg, b, s)) <==> b.MaxLen() > 1 || OneRowEach(b)
  {
    if b.MaxLen() > 1 || OneRowEach(b) {
      forall s: seq<int>
        ensures DescribedWith(cfg, b, s)
      {
        if LiveLens(b, s) {
          var b' := b.(seqLens := s);
          forall i | 0 <= i < Total(b.starts)
            ensures RowDescribed(cfg, b', i)
          {
            if b.MaxLen() > 1 {
              ExpandedRowDescribed(cfg, b', i);
            } else {
              OneRowEachDescribes(cfg, b', i);
            }
          }
        }
      }
    } else {
      TotalAtMostRequests(cfg, b);
      var i := FirstBreak(b);
      BreakShows(cfg, b, i);
    }
  }

  /** Under adaptive verification the device may run two rows of one request where the host
      counted one of each: row 1, of request 0, is handed request 1's length. */
  lemma AdaptiveGlobalRowsMismatch()
    ensures var cfg := Config(8, 1, 2, 1, 2, 0, 1, true, false, true, {});
            var b := Batch([0, 2, 2], [0, 1, 2], [10, 20], [[7], [8]], 2, true);
            && b.Valid(cfg) && !b.UseNative(cfg)
            && b.RowLen(0) == 9 && b.RowLen(1) == 10 && b.GlobalRows(cfg) == [10, 20]
  {
    var b := Batch([0, 2, 2], [0, 1, 2], [10, 20], [[7], [8]], 2, true);
    assert b.LensCpu() == [1, 1];
    ReqOfUnique(b.starts, 0, 0);
    ReqOfUnique(b.starts, 1, 0);
  }

  // Lengths below zero.

  /** How far below zero a length may be before it shows: with sharding a rank loses keys
      only after the ranks behind it have. */
  function Margin(cfg: Config, b: Batch): int
    requires cfg.Valid()
  {
    if b.dcpLocal then Slack(cfg.world, cfg.rank, cfg.interleave) else 0
  }

  /** No request runs more than `1 + margin` rows beyond its length. */
  predicate NoOverrun(b: Batch, margin: int)
    requires |b.seqLens| >= |b.starts| - 1
  {
    forall r :: 0 <= r < |b.starts| - 1 && DeviceLen(b, r) > 0 ==> DeviceLen(b, r) <= b.seqLens[r] + 1 + margin
  }

  lemma FlatLensBoundedIff(b: Batch, margin: int)
    requires 0 <= margin && ValidStarts(b.starts) && |b.seqLens| >= |b.starts| - 1 && Total(b.starts) <= b.numTokens
    ensures (forall i :: 0 <= i < b.numTokens ==> b.FlatLens()[i] >= -margin) <==> NoOverrun(b, margin)
  {
    if r :| 0 <= r < |b.starts| - 1 && DeviceLen(b, r) > 0 && DeviceLen(b, r) > b.seqLens[r] + 1 + margin {
      var i := b.starts[r];
      ReqOfUnique(b.starts, i, r);
      assert b.FlatLens()[i] == b.RowLen(i) == b.seqLens[r] - DeviceLen(b, r) + 1;
    } else {
      forall i | 0 <= i < b.numTokens
        ensures b.FlatLens()[i] >= -margin
      {
        assert b.FlatLens()[i] == b.RowLen(i);
        if i < Total(b.starts) {
          var r := ReqOf(b.starts, i);
          assert DeviceLen(b, r) > 0;
        }
      }
    }
  }

  lemma FinishSign(cfg: Config, b: Batch, n: int)
    requires cfg.Valid()
    ensures b.Finish(cfg, n) >= 0 <==> n >= -Margin(cfg, b)
    ensures Margin(cfg, b) >= 0
  {
    var l := if b.dcpLocal then LocalLen(n, cfg.world, cfg.rank, cfg.interleave) else n;
    LocalLenSign(n, cfg.world, cfg.rank, cfg.interleave);
    DivSign(l, cfg.ratio);
    ProductMonotone(cfg.world - 1 - cfg.rank, cfg.interleave, 0, 0);
  }

  /** On the general flatten path no handed-out length is negative exactly when no request
      overruns its length by more than one row, and on a sharded step the rank's margin. */
  lemma GeneralPathNonNegativeIff(cfg: Config, b: Batch)
    requires b.Valid(cfg) && !b.UseNative(cfg) && !b.UseUniform(cfg)
    ensures (forall i :: 0 <= i < |b.FinalLens(cfg)| ==> b.FinalLens(cfg)[i] >= 0) <==>
            NoOverrun(b, Margin(cfg, b))
  {
    FinishSign(cfg, b, 0);
    FlatLensBoundedIff(b, Margin(cfg, b));
    forall i | 0 <= i < b.numTokens
      ensures i < |b.FinalLens(cfg)| && (b.FinalLens(cfg)[i] >= 0 <==> b.FlatLens()[i] >= -Margin(cfg, b))
    {
      FinalRow(cfg, b, i);
      FinishSign(cfg, b, b.FlatLens()[i]);
    }
  }

  /** On the clamping paths none ever is. */
  lemma ClampingPathsNonNegative(cfg: Config, b: Batch, i: int)
    requires b.Valid(cfg) && (if b.UseNative(cfg) then cfg.nextN > 1 else b.UseUniform(cfg))
    requires 0 <= i < |b.FinalLens(cfg)|
    ensures b.FinalLens(cfg)[i] >= 0
  {
    assert b.GlobalLens(cfg)[i] >= 0;
    FinishSign(cfg, b, b.GlobalLens(cfg)[i]);
  }

  /** Two rows and no keys next to a live request: the general path hands out -1. */
  lemma GeneralPathHandsOutNegative()
    ensures var cfg := Config(8, 1, 2, 1, 1, 0, 1, true, false, true, {});
            var b := Batch([0, 2, 3], [0, 2, 3], [0, 5], [[7], [8]], 3, false);
            && b.Valid(cfg) && !b.UseNative(cfg) && !b.UseUniform(cfg) && !NoOverrun(b, Margin(cfg, b))
            && b.FinalLens(cfg)[0] == -1
  {
    var cfg := Config(8, 1, 2, 1, 1, 0, 1, true, false, true, {});
    var b := Batch([0, 2, 3], [0, 2, 3], [0, 5], [[7], [8]], 3, false);
    assert b.LensCpu() == [2, 1];
    ReqOfUnique(b.starts, 0, 0);
    FinalRow(cfg, b, 0);
    assert b.FlatLens()[0] == b.RowLen(0) == -1;
    assert DeviceLen(b, 0) == 2;
  }
}
