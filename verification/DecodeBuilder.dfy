/** The decode half of the indexer's metadata builder: persistent buffers, overwritten in
    place by every build and handed out as views. */
module DecodeBuilder {
  import opened Arith
  import opened Dcp
  import opened Ragged
  import opened DecodeSpec
  import opened Options
  import opened Launch

  /** The first `len` entries of a buffer. */
  datatype View = View(buf: array<int>, len: int)

  ghost predicate Holds(v: View, s: seq<int>)
    reads v.buf
  {
    0 <= v.len <= v.buf.Length && v.buf[..v.len] == s
  }

  datatype Table = CallerTable(rows: seq<seq<int>>) | ExpandedTable(len: int)

  datatype Metadata = Metadata(seqLens: View, decodeLens: View, table: Table, batchSize: int,
                               requiresPadding: bool, indices: Option<View>, globalLens: Option<View>)

  const BLOCK: int := 1024

  class Builder {
    const cfg: Config
    const decodeLens: array<int>
    const decodeSeqLens: array<int>
    const globalSeqLens: array<int>
    const decodeIndices: array<int>
    const expandedSeqLens: array<int>
    const blockRows: array2<int>

    ghost predicate Valid() {
      && cfg.Valid()
      && decodeLens.Length == decodeSeqLens.Length == globalSeqLens.Length
         == decodeIndices.Length == expandedSeqLens.Length == cfg.maxTokens
      && blockRows.Length0 == cfg.maxTokens && blockRows.Length1 == cfg.tableWidth
      && decodeLens != decodeSeqLens && decodeLens != globalSeqLens && decodeLens != decodeIndices
      && decodeLens != expandedSeqLens && decodeSeqLens != globalSeqLens && decodeSeqLens != decodeIndices
      && decodeSeqLens != expandedSeqLens && globalSeqLens != decodeIndices
      && globalSeqLens != expandedSeqLens && decodeIndices != expandedSeqLens
    }

    ghost predicate Foreign(t: array<int>) {
      t !in {decodeLens, decodeSeqLens, globalSeqLens, decodeIndices, expandedSeqLens}
    }

    constructor (cfg: Config)
      requires cfg.Valid()
      ensures Valid() && this.cfg == cfg
      ensures fresh(decodeLens) && fresh(decodeSeqLens) && fresh(globalSeqLens)
      ensures fresh(decodeIndices) && fresh(expandedSeqLens) && fresh(blockRows)
    {
      this.cfg := cfg;
      decodeLens := new int[cfg.maxTokens](_ => 0);
      decodeSeqLens := new int[cfg.maxTokens](_ => 0);
      globalSeqLens := new int[cfg.maxTokens](_ => 0);
      decodeIndices := new int[cfg.maxTokens](_ => 0);
      expandedSeqLens := new int[cfg.maxTokens](_ => 0);
      blockRows := new int[cfg.maxTokens, cfg.tableWidth]((_, _) => 0);
    }

    /** The caller's tensors as a step sees them: its batch, its own sequence lengths, and
        the device query lengths already differenced into the shared lens buffer. */
    ghost predicate Ready(b: Batch, seqLens: array<int>)
      reads seqLens, decodeLens
    {
      && Valid() && b.Valid(cfg) && Foreign(seqLens) && seqLens[..] == b.seqLens
      && decodeLens[..b.NumDecodes()] == Diffs(b.starts)
    }

    /** Expansion by `repeat_interleave`, reading the lengths from the shared buffer. */
    method ExpandLens(b: Batch, seqLens: array<int>) returns (lens: seq<int>)
      requires Ready(b, seqLens)
      ensures |lens| == Total(b.starts)
      ensures forall i :: 0 <= i < |lens| ==> lens[i] == b.RowLen(i)
    {
      var n := b.NumDecodes();
      var counts, s := decodeLens[..n], seqLens[..n];
      var base := seq(n, k requires 0 <= k < n => s[k] - counts[k] - b.starts[k]);
      RepeatInterleaveByRequest(base, b.starts);
      var offsets := RepeatInterleave(base, counts);
      lens := seq(|offsets|, i requires 0 <= i < |offsets| => offsets[i] + i + 1);
      forall i | 0 <= i < |lens|
        ensures lens[i] == b.RowLen(i)
      {
        var r := ReqOf(b.starts, i);
        assert offsets[i] == base[r] && s[r] == b.seqLens[r];
      }
    }

    method PrepareGlobalLens(b: Batch, seqLens: array<int>) returns (g: Option<View>)
      requires Ready(b, seqLens)
      modifies globalSeqLens
      ensures g.Some? <==> b.dcpLocal
      ensures g.Some? ==> Holds(g.value, b.GlobalRows(cfg)) && g.value.buf in {seqLens, globalSeqLens}
    {
      if !b.dcpLocal {
        return None;
      }
      var n := b.NumDecodes();
      if b.UseNative(cfg) || b.MaxLen() <= 1 {
        assert seqLens[..n] == b.seqLens[..n];
        return Some(View(seqLens, n));
      }
      var lens := ExpandLens(b, seqLens);
      forall i | 0 <= i < |lens| { globalSeqLens[i] := lens[i]; }
      forall i | |lens| <= i < b.numTokens { globalSeqLens[i] := 0; }
      assert globalSeqLens[..b.numTokens] == b.FlatLens();
      g := Some(View(globalSeqLens, b.numTokens));
    }

    method ExpandIds(b: Batch) returns (rows: seq<int>)
      requires Valid() && b.Valid(cfg) && decodeLens[..b.NumDecodes()] == Diffs(b.starts)
      ensures |rows| == Total(b.starts) && forall i :: 0 <= i < |rows| ==> rows[i] == ReqOf(b.starts, i)
    {
      var ids := seq(b.NumDecodes(), k => k);
      RepeatInterleaveByRequest(ids, b.starts);
      rows := RepeatInterleave(ids, decodeLens[..b.NumDecodes()]);
    }

    method BuildVarlenIndices(b: Batch) returns (v: View)
      requires Valid() && b.Valid(cfg) && decodeLens[..b.NumDecodes()] == Diffs(b.starts)
      modifies decodeIndices
      ensures v.buf == decodeIndices && Holds(v, b.RowIds())
    {
      var n := b.NumDecodes();
      var rows := ExpandIds(b);
      var total := |rows|;
      forall i | 0 <= i < total { decodeIndices[i] := rows[i]; }
      if total < b.numTokens {
        forall i | total <= i < b.numTokens { decodeIndices[i] := n + (i - total); }
      }
      v := View(decodeIndices, b.numTokens);
    }

    /** Row `i` of the expanded block table holds `row`. */
    ghost predicate RowIs(i: int, row: seq<int>)
      reads blockRows
    {
      && 0 <= i < blockRows.Length0 && |row| == blockRows.Length1
      && forall c :: 0 <= c < |row| ==> blockRows[i, c] == row[c]
    }

    ghost predicate TableExpanded(b: Batch)
      reads blockRows
      requires b.Valid(cfg)
    {
      && (forall i :: 0 <= i < Total(b.starts) ==> RowIs(i, b.table[ReqOf(b.starts, i)]))
      && forall i :: Total(b.starts) <= i < b.numTokens ==> Cleared(i)
    }

    /** The first entry of row `i` is cleared. */
    ghost predicate Cleared(i: int)
      reads blockRows
    {
      0 <= i < blockRows.Length0 && 0 < blockRows.Length1 && blockRows[i, 0] == 0
    }

    method StoreOnes(n: int)
      requires Valid() && 0 <= n <= cfg.maxTokens
      modifies decodeLens
      ensures decodeLens[..n] == Repeat(1, n)
    {
      forall i | 0 <= i < n { decodeLens[i] := 1; }
    }

    /** Copies a block-table row tile by tile. */
    method CopyRow(i: int, row: seq<int>)
      requires Valid() && 0 <= i < cfg.maxTokens && |row| == cfg.tableWidth
      modifies blockRows
      ensures RowIs(i, row)
      ensures forall q, c :: 0 <= q < blockRows.Length0 && 0 <= c < blockRows.Length1 && q != i ==>
                blockRows[q, c] == old(blockRows[q, c])
    {
      var first := 0;
      while first < cfg.tableWidth
        invariant 0 <= first
        invariant forall c :: 0 <= c < |row| && c < first ==> blockRows[i, c] == row[c]
        invariant forall q, c :: 0 <= q < blockRows.Length0 && 0 <= c < blockRows.Length1 && q != i ==>
                    blockRows[q, c] == old(blockRows[q, c])
      {
        for lane := 0 to BLOCK
          invariant forall c :: 0 <= c < |row| && c < first + lane ==> blockRows[i, c] == row[c]
          invariant forall q, c :: 0 <= q < blockRows.Length0 && 0 <= c < blockRows.Length1 && q != i ==>
                      blockRows[q, c] == old(blockRows[q, c])
        {
          if first + lane < cfg.tableWidth {
            blockRows[i, first + lane] := row[first + lane];
          }
        }
        first := first + BLOCK;
      }
    }

    /** What a program of the uniform kernel leaves for its row: the causal length, clamped at
        zero, its request's block-table row, and the decode length one. */
    ghost predicate UniformStored(b: Batch, idx: int)
      reads decodeSeqLens, decodeLens, blockRows
      requires b.Valid(cfg)
    {
      && 0 <= idx < Total(b.starts) && idx < decodeSeqLens.Length && idx < decodeLens.Length
      && decodeSeqLens[idx] == Max(b.RowLen(idx), 0) && decodeLens[idx] == 1
      && RowIs(idx, b.table[ReqOf(b.starts, idx)])
    }

    /** The uniform kernel's program `idx`. */
    method UniformProgram(b: Batch, seqLens: array<int>, idx: int)
      requires Valid() && b.Valid(cfg) && b.UseUniform(cfg) && 0 <= idx < b.numTokens
      requires Foreign(seqLens) && seqLens[..] == b.seqLens
      modifies decodeSeqLens, decodeLens, blockRows
      ensures UniformStored(b, idx)
      ensures forall i :: i != idx && old(UniformStored(b, i)) ==> UniformStored(b, i)
    {
      var m := b.MaxLen();
      UniformRow(cfg, b, idx);
      var r := idx / m;
      decodeSeqLens[idx] := Max(seqLens[r] - m + idx % m + 1, 0);
      CopyRow(idx, b.table[r]);
      decodeLens[idx] := 1;
    }

    /** The launch, in any order, and the tail of the length buffer. */
    method LaunchUniform(b: Batch, seqLens: array<int>, order: seq<int>)
      requires Valid() && b.Valid(cfg) && !b.UseNative(cfg) && b.UseUniform(cfg) && IsOrder(order, b.numTokens)
      requires Foreign(seqLens) && seqLens[..] == b.seqLens
      modifies decodeSeqLens, decodeLens, blockRows
      ensures decodeSeqLens[..b.numTokens] == b.GlobalLens(cfg)
      ensures decodeLens[..b.numTokens] == Repeat(1, b.numTokens) && TableExpanded(b)
    {
      UniformOnDevice(cfg, b);
      for k := 0 to |order|
        invariant seqLens[..] == b.seqLens
        invariant forall i :: Runs(order[..k], i) ==> UniformStored(b, i)
      {
        UniformProgram(b, seqLens, order[k]);
        RunsOneMore(order, k);
      }
      assert order[..|order|] == order;
      AllUniform(b);
      forall i | b.numTokens <= i < cfg.maxTokens { decodeSeqLens[i] := 0; }
      assert TableExpanded(b);
    }

    lemma AllUniform(b: Batch)
      requires Valid() && b.Valid(cfg) && !b.UseNative(cfg) && b.UseUniform(cfg) && Total(b.starts) == b.numTokens
      requires forall i :: 0 <= i < b.numTokens ==> UniformStored(b, i)
      ensures decodeSeqLens[..b.numTokens] == b.GlobalLens(cfg)
      ensures decodeLens[..b.numTokens] == Repeat(1, b.numTokens) && TableExpanded(b)
    {
      forall i | 0 <= i < b.numTokens
        ensures decodeSeqLens[i] == Max(b.RowLen(i), 0) && decodeLens[i] == 1
        ensures RowIs(i, b.table[ReqOf(b.starts, i)])
      {
        assert UniformStored(b, i);
      }
    }

    /** Copies whole rows into the expanded block table. */
    method StoreRows(rows: seq<seq<int>>)
      requires Valid() && |rows| <= cfg.maxTokens && forall i :: 0 <= i < |rows| ==> |rows[i]| == cfg.tableWidth
      modifies blockRows
      ensures forall i :: 0 <= i < |rows| ==> RowIs(i, rows[i])
    {
      forall i, c | 0 <= i < |rows| && 0 <= c < cfg.tableWidth { blockRows[i, c] := rows[i][c]; }
    }

    /** The general flatten path: rows of variable length per request, lengths first ... */
    method StoreFlatLens(b: Batch, seqLens: array<int>)
      requires Ready(b, seqLens) && !b.UseNative(cfg) && !b.UseUniform(cfg)
      modifies decodeSeqLens
      ensures decodeSeqLens[..b.numTokens] == b.GlobalLens(cfg)
    {
      var lens := ExpandLens(b, seqLens);
      forall i | 0 <= i < |lens| { decodeSeqLens[i] := lens[i]; }
      forall i | |lens| <= i < cfg.maxTokens { decodeSeqLens[i] := 0; }
    }

    /** ... then block-table rows; of a padding row only the first entry is cleared. */
    method StoreFlatRows(b: Batch)
      requires Valid() && b.Valid(cfg) && decodeLens[..b.NumDecodes()] == Diffs(b.starts)
      modifies blockRows
      ensures TableExpanded(b)
    {
      var rows := ExpandRows(b);
      var total := |rows|;
      StoreRows(rows);
      if total < b.numTokens {
        ClearFirst(total, b.numTokens);
      }
    }

    method ExpandRows(b: Batch) returns (rows: seq<seq<int>>)
      requires Valid() && b.Valid(cfg) && decodeLens[..b.NumDecodes()] == Diffs(b.starts)
      ensures |rows| == Total(b.starts)
      ensures forall i :: 0 <= i < |rows| ==> rows[i] == b.table[ReqOf(b.starts, i)]
    {
      RepeatInterleaveByRequest(b.table, b.starts);
      rows := RepeatInterleave(b.table, decodeLens[..b.NumDecodes()]);
    }

    method ClearFirst(lo: int, hi: int)
      requires Valid() && 0 <= lo <= hi <= cfg.maxTokens
      modifies blockRows
      ensures forall i :: lo <= i < hi ==> Cleared(i)
      ensures forall i, row :: i < lo && old(RowIs(i, row)) ==> RowIs(i, row)
    {
      forall i | lo <= i < hi { blockRows[i, 0] := 0; }
    }

    /** Either way of flattening leaves one row per token. */
    method Flatten(b: Batch, seqLens: array<int>, order: seq<int>)
      requires Ready(b, seqLens) && !b.UseNative(cfg) && IsOrder(order, b.numTokens)
      modifies decodeSeqLens, blockRows, decodeLens
      ensures decodeSeqLens[..b.numTokens] == b.GlobalLens(cfg)
      ensures decodeLens[..b.numTokens] == Repeat(1, b.numTokens) && TableExpanded(b)
    {
      if b.UseUniform(cfg) {
        LaunchUniform(b, seqLens, order);
      } else {
        StoreFlatLens(b, seqLens);
        assert decodeLens[..b.NumDecodes()] == Diffs(b.starts);
        StoreFlatRows(b);
        StoreOnes(b.numTokens);
      }
    }

    method PrepareDecodeTensors(b: Batch, seqLens: array<int>, order: seq<int>)
      returns (cur: View, table: Table, lens: View, batchSize: int, pad: bool)
      requires Ready(b, seqLens) && IsOrder(order, b.numTokens)
      modifies decodeSeqLens, blockRows, decodeLens
      ensures Holds(cur, b.GlobalLens(cfg))
      ensures cur.buf == if b.UseNative(cfg) && cfg.nextN == 1 then seqLens else decodeSeqLens
      ensures lens.buf == decodeLens && lens.len == batchSize
      ensures if b.UseNative(cfg)
              then table == CallerTable(b.table) && Holds(lens, Diffs(b.starts))
              else table == ExpandedTable(b.numTokens) && TableExpanded(b) && Holds(lens, Repeat(1, b.numTokens))
      ensures pad <==> b.UseNative(cfg) && MinOf(b.LensCpu()) != b.MaxLen()
    {
      if !b.UseNative(cfg) {
        Flatten(b, seqLens, order);
        return View(decodeSeqLens, b.numTokens), ExpandedTable(b.numTokens),
               View(decodeLens, b.numTokens), b.numTokens, false;
      }
      var n, m := b.NumDecodes(), b.MaxLen();
      pad := MinOf(b.LensCpu()) != m;
      cur := View(seqLens, n);
      if cfg.nextN > 1 {
        StoreNativeLens(b, seqLens);
        cur := View(decodeSeqLens, b.NativeSize());
      }
      table, lens, batchSize := CallerTable(b.table), View(decodeLens, n), n;
    }

    method StoreNativeLens(b: Batch, seqLens: array<int>)
      requires Ready(b, seqLens) && b.UseNative(cfg)
      modifies decodeSeqLens
      ensures decodeSeqLens[..b.NativeSize()] == b.NativeLens()
    {
      var n, m := b.NumDecodes(), b.MaxLen();
      assert m <= cfg.nextN;
      for k := 0 to b.NativeSize()
        invariant forall j :: 0 <= j < k ==> decodeSeqLens[j] == b.NativeLen(j)
      {
        RowInRange(k, n, m);
        decodeSeqLens[k] := Max(seqLens[k / m] - m + 1 + k % m, 0);
      }
    }

    /** Sharding, after expansion: in place when the lengths are a view of the builder's
        own buffer, copied into it while they are still the caller's. */
    method Localize(b: Batch, cur: View, isBufferView: bool, ghost g: seq<int>) returns (r: View)
      requires Valid() && b.Valid(cfg) && Holds(cur, g) && cur.len <= cfg.maxTokens
      requires if isBufferView then cur.buf == decodeSeqLens else Foreign(cur.buf)
      modifies decodeSeqLens
      ensures r.buf == decodeSeqLens
      ensures Holds(r, Sharded(cfg, g))
    {
      var local := seq(cur.len, i requires 0 <= i < cur.len reads cur.buf =>
        LocalLen(cur.buf[i], cfg.world, cfg.rank, cfg.interleave));
      r := if isBufferView then cur else View(decodeSeqLens, cur.len);
      forall i | 0 <= i < r.len { r.buf[i] := local[i]; }
    }

    /** Compression: in place on the builder's buffer, otherwise into a padded copy. */
    method Compress(b: Batch, cur: View, isBufferView: bool, ghost g: seq<int>) returns (r: View)
      requires Valid() && b.Valid(cfg) && Holds(cur, g)
      requires isBufferView ==> cur.buf == decodeSeqLens
      requires !isBufferView ==> cur.buf != expandedSeqLens && cur.len == b.NumDecodes()
      modifies decodeSeqLens, expandedSeqLens
      ensures cfg.ratio == 1 || isBufferView ==>
                r == cur && Holds(r, Scaled(cfg, g))
      ensures cfg.ratio > 1 && !isBufferView ==>
                && r.buf == expandedSeqLens
                && Holds(r, Padded(Scaled(cfg, g), b.numTokens))
    {
      r := cur;
      if cfg.ratio == 1 {
        assert Scaled(cfg, g) == g;
      } else {
        if isBufferView {
          forall i | 0 <= i < cur.len { cur.buf[i] := cur.buf[i] / cfg.ratio; }
        } else {
          var n := b.NumDecodes();
          forall i | 0 <= i < n { expandedSeqLens[i] := cur.buf[i] / cfg.ratio; }
          forall i | n <= i < b.numTokens { expandedSeqLens[i] := 0; }
          r := View(expandedSeqLens, b.numTokens);
        }
      }
    }

    /** Sharding and compression together give every row its final length. */
    method FinishLens(b: Batch, cur: View) returns (r: View)
      requires Valid() && b.Valid(cfg) && Holds(cur, b.GlobalLens(cfg)) && cur.len <= cfg.maxTokens
      requires if b.UseNative(cfg) && cfg.nextN == 1 then Foreign(cur.buf) else cur.buf == decodeSeqLens
      modifies decodeSeqLens, expandedSeqLens
      ensures Holds(r, b.FinalLens(cfg))
    {
      var isBufferView := !b.UseNative(cfg) || cfg.nextN > 1;
      ghost var g := b.GlobalLens(cfg);
      r := cur;
      if b.dcpLocal {
        r := Localize(b, cur, isBufferView, g);
        g := Sharded(cfg, g);
      }
      r := Compress(b, r, isBufferView, g);
    }

    method StoreQueryLens(b: Batch)
      requires Valid() && b.Valid(cfg)
      modifies decodeLens
      ensures decodeLens[..b.NumDecodes()] == Diffs(b.starts)
    {
      var n := b.NumDecodes();
      forall i | 0 <= i < n { decodeLens[i] := b.starts[i + 1] - b.starts[i]; }
    }

    /** The decode metadata of one step.  Its readable part is a function of the batch
        alone: no clause mentions what the buffers held before.  Rows without keys may
        still show old block-table entries past the first, and only they. */
    method BuildDecode(b: Batch, seqLens: array<int>, order: seq<int>) returns (md: Metadata)
      requires Valid() && b.Valid(cfg) && Foreign(seqLens) && seqLens[..] == b.seqLens
      requires IsOrder(order, b.numTokens)
      modifies decodeLens, decodeSeqLens, globalSeqLens, decodeIndices, expandedSeqLens, blockRows
      ensures Describes(md, b)
      ensures seqLens[..] == old(seqLens[..])
    {
      StoreQueryLens(b);
      var globalLens := PrepareGlobalLens(b, seqLens);
      var indices: Option<View> := None;
      if cfg.supportsVarlen {
        var v := BuildVarlenIndices(b);
        indices := Some(v);
      }
      assert Ready(b, seqLens);
      var cur, table, lens, batchSize, pad := PrepareDecodeTensors(b, seqLens, order);
      cur := FinishLens(b, cur);
      md := Metadata(cur, lens, table, batchSize, pad, indices, globalLens);
    }

    /** The readable part of decode metadata, for a batch. */
    ghost predicate Describes(md: Metadata, b: Batch)
      reads md.seqLens.buf, md.decodeLens.buf, blockRows
      reads if md.indices.Some? then {md.indices.value.buf} else {}
      reads if md.globalLens.Some? then {md.globalLens.value.buf} else {}
    {
      && b.Valid(cfg)
      && Holds(md.seqLens, b.FinalLens(cfg))
      && (md.indices.Some? <==> cfg.supportsVarlen)
      && (md.indices.Some? ==> Holds(md.indices.value, b.RowIds()))
      && (md.globalLens.Some? <==> b.dcpLocal)
      && (md.globalLens.Some? ==> Holds(md.globalLens.value, b.GlobalRows(cfg)))
      && (md.requiresPadding <==> b.UseNative(cfg) && MinOf(b.LensCpu()) != b.MaxLen())
      && md.batchSize == md.decodeLens.len
      && if b.UseNative(cfg)
         then md.table == CallerTable(b.table) && Holds(md.decodeLens, Diffs(b.starts))
         else md.table == ExpandedTable(b.numTokens) && TableExpanded(b) && Holds(md.decodeLens, Repeat(1, b.numTokens))
    }
  }
}
