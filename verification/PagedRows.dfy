/** Index rows in paged coordinates: position `p` of a sequence lives in slot
    `table[p / blockSize] * blockSize + p % blockSize` of the KV cache. */
module PagedRows {
  import opened Arith
  import opened Sums

  predicate Mapped(table: seq<int>, blockSize: int, p: int) {
    blockSize > 0 && 0 <= p && p / blockSize < |table|
  }

  function Slot(table: seq<int>, blockSize: int, p: int): int
    requires Mapped(table, blockSize, p)
  {
    BlockOf(p, blockSize);
    table[p / blockSize] * blockSize + p % blockSize
  }

  lemma BlockOf(p: int, blockSize: int)
    requires blockSize > 0 && 0 <= p
    ensures 0 <= p / blockSize
  {
    DivMonotone(0, p, blockSize);
  }

  /** A slot gives back its block and its place in the block. */
  lemma SlotInverts(table: seq<int>, blockSize: int, p: int)
    requires Mapped(table, blockSize, p)
    ensures 0 <= p / blockSize
    ensures Slot(table, blockSize, p) / blockSize == table[p / blockSize]
    ensures Slot(table, blockSize, p) % blockSize == p % blockSize
  {
    BlockOf(p, blockSize);
    DivModUnique(Slot(table, blockSize, p), blockSize, table[p / blockSize], p % blockSize);
  }

  predicate Distinct(s: seq<int>) {
    forall i, j :: 0 <= i < j < |s| ==> s[i] != s[j]
  }

  /** With distinct blocks, a slot stands for one position only. */
  lemma SlotInjective(table: seq<int>, blockSize: int, p: int, q: int)
    requires Mapped(table, blockSize, p) && Mapped(table, blockSize, q) && Distinct(table)
    ensures Slot(table, blockSize, p) == Slot(table, blockSize, q) <==> p == q
  {
    SlotInverts(table, blockSize, p);
    SlotInverts(table, blockSize, q);
    assert p == (p / blockSize) * blockSize + p % blockSize;
    assert q == (q / blockSize) * blockSize + q % blockSize;
  }

  /** Requests that own disjoint blocks never share a slot. */
  lemma SlotsOfDisjointTables(t1: seq<int>, t2: seq<int>, blockSize: int, p: int, q: int)
    requires Mapped(t1, blockSize, p) && Mapped(t2, blockSize, q)
    requires forall x :: x in t1 ==> x !in t2
    ensures Slot(t1, blockSize, p) != Slot(t2, blockSize, q)
  {
    SlotInverts(t1, blockSize, p);
    SlotInverts(t2, blockSize, q);
    assert t1[p / blockSize] in t1 && t2[q / blockSize] in t2;
  }

  lemma SlotNonNegative(table: seq<int>, blockSize: int, p: int)
    requires Mapped(table, blockSize, p) && NonNegative(table)
    ensures 0 <= Slot(table, blockSize, p)
  {
    BlockOf(p, blockSize);
    ProductMonotone(table[p / blockSize], blockSize, 0, 0);
  }

  /** All positions of `[start, end)` are mapped. */
  predicate MappedTo(table: seq<int>, blockSize: int, end: int) {
    blockSize > 0 && (end > 0 ==> (end - 1) / blockSize < |table|)
  }

  lemma MappedBelow(table: seq<int>, blockSize: int, end: int, p: int)
    requires MappedTo(table, blockSize, end) && 0 <= p < end
    ensures Mapped(table, blockSize, p)
  {
    DivMonotone(p, end - 1, blockSize);
  }

  /** The slot of `p` if `p` is below `end`, and -1 past it: what one lane stores. */
  function Entry(table: seq<int>, blockSize: int, end: int, p: int): int
    requires MappedTo(table, blockSize, end) && 0 <= p
  {
    if p < end then MappedBelow(table, blockSize, end, p); Slot(table, blockSize, p) else -1
  }

  /** The index row for positions `[start, end)`. */
  function PagedRow(table: seq<int>, blockSize: int, start: int, end: int, width: nat): (r: seq<int>)
    requires MappedTo(table, blockSize, end) && 0 <= start
    ensures |r| == width
  {
    seq(width, o requires 0 <= o < width => Entry(table, blockSize, end, start + o))
  }

  predicate IsSlot(table: seq<int>, blockSize: int, p: int, v: int) {
    Mapped(table, blockSize, p) && v == Slot(table, blockSize, p) && 0 <= v
  }

  lemma RowEntry(table: seq<int>, blockSize: int, start: int, end: int, width: nat, o: int)
    requires MappedTo(table, blockSize, end) && NonNegative(table) && 0 <= start && 0 <= o < width
    ensures start + o < end ==> IsSlot(table, blockSize, start + o, PagedRow(table, blockSize, start, end, width)[o])
    ensures end <= start + o ==> PagedRow(table, blockSize, start, end, width)[o] == -1
  {
    assert PagedRow(table, blockSize, start, end, width)[o] == Entry(table, blockSize, end, start + o);
    if start + o < end {
      MappedBelow(table, blockSize, end, start + o);
      SlotNonNegative(table, blockSize, start + o);
    }
  }

  /** A row wide enough lists the slots of exactly its positions, in order and without
      repetition, and then only -1. */
  lemma PagedRowIsExact(table: seq<int>, blockSize: int, start: int, end: int, width: nat)
    requires MappedTo(table, blockSize, end) && 0 <= start <= end && end - start <= width
    requires NonNegative(table) && Distinct(table)
    ensures var r := PagedRow(table, blockSize, start, end, width);
            && (forall o {:trigger r[o]} :: 0 <= o < end - start ==> IsSlot(table, blockSize, start + o, r[o]))
            && (forall o :: end - start <= o < width ==> r[o] == -1)
            && Distinct(r[..end - start])
  {
    var r := PagedRow(table, blockSize, start, end, width);
    forall o {:trigger r[o]} | 0 <= o < width
      ensures if o < end - start then IsSlot(table, blockSize, start + o, r[o]) else r[o] == -1
    {
      RowEntry(table, blockSize, start, end, width, o);
    }
    forall i, j | 0 <= i < j < end - start
      ensures r[i] != r[j]
    {
      assert IsSlot(table, blockSize, start + i, r[i]) && IsSlot(table, blockSize, start + j, r[j]);
      SlotInjective(table, blockSize, start + i, start + j);
    }
  }

  /** The row lists the slot of a mapped position exactly when the position is in range. */
  lemma PagedRowMembers(table: seq<int>, blockSize: int, start: int, end: int, width: nat, p: int)
    requires MappedTo(table, blockSize, end) && 0 <= start <= end && end - start <= width
    requires NonNegative(table) && Distinct(table) && Mapped(table, blockSize, p)
    ensures Slot(table, blockSize, p) in PagedRow(table, blockSize, start, end, width) <==> start <= p < end
  {
    var r := PagedRow(table, blockSize, start, end, width);
    PagedRowIsExact(table, blockSize, start, end, width);
    SlotNonNegative(table, blockSize, p);
    if start <= p < end {
      assert r[p - start] == Slot(table, blockSize, p);
    }
    forall o | 0 <= o < width && r[o] == Slot(table, blockSize, p)
      ensures p == start + o && start + o < end
    {
      SlotInjective(table, blockSize, p, start + o);
    }
  }
}
