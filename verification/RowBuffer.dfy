/** A persistent index matrix in a flat buffer, one row per token, with a length per row.
    Kernels store a prefix of a row, tile by tile; everything else keeps its old value. */
module RowBuffer {
  import opened Arith

  const BLOCK: int := 1024

  lemma RowBefore(r: int, q: int, stride: int)
    requires 0 <= r < q && 0 <= stride
    ensures 0 <= r * stride && r * stride + stride <= q * stride
  {
    ProductMonotone(q, stride, r + 1, stride);
    assert (r + 1) * stride == r * stride + stride;
  }

  /** Rows of distinct tokens never overlap. */
  lemma RowsDisjoint(r: int, q: int, stride: int)
    requires 0 <= r && 0 <= q && r != q && 0 <= stride
    ensures r * stride + stride <= q * stride || q * stride + stride <= r * stride
  {
    if r < q {
      RowBefore(r, q, stride);
    } else {
      RowBefore(q, r, stride);
    }
  }

  class Rows {
    const data: array<int>
    const lens: array<int>
    const capacity: int
    const stride: int

    ghost predicate Valid() {
      && 0 <= capacity && 0 <= stride && data != lens
      && data.Length == capacity * stride && lens.Length == capacity
    }

    constructor (capacity: nat, stride: nat)
      ensures Valid() && this.capacity == capacity && this.stride == stride && fresh(data) && fresh(lens)
    {
      this.capacity, this.stride := capacity, stride;
      data := new int[capacity * stride](_ => 0);
      lens := new int[capacity](_ => 0);
    }

    /** Row `r`, at its full width. */
    ghost function Row(r: int): (s: seq<int>)
      reads data
      requires Valid() && 0 <= r < capacity
      ensures |s| == stride
    {
      RowBefore(r, capacity, stride);
      data[r * stride..r * stride + stride]
    }

    /** The tiled masked store of `f` to the first `width` entries of row `r`. */
    method StoreRow(r: int, width: int, f: int --> int)
      requires Valid() && 0 <= r < capacity && 0 <= width <= stride
      requires forall o :: 0 <= o < width ==> f.requires(o)
      modifies data
      ensures forall o :: 0 <= o < width ==> Row(r)[o] == f(o)
      ensures forall o :: width <= o < stride ==> Row(r)[o] == old(Row(r)[o])
      ensures forall q :: 0 <= q < capacity && q != r ==> Row(q) == old(Row(q))
    {
      RowBefore(r, capacity, stride);
      var base := r * stride;
      var i := 0;
      while i < width
        invariant 0 <= i
        invariant forall x :: 0 <= x < data.Length && !(base <= x < base + width) ==> data[x] == old(data[x])
        invariant forall x :: base <= x < base + width && x < base + i ==> data[x] == f(x - base)
      {
        for lane := 0 to BLOCK
          invariant forall x :: 0 <= x < data.Length && !(base <= x < base + width) ==> data[x] == old(data[x])
          invariant forall x :: base <= x < base + width && x < base + i + lane ==> data[x] == f(x - base)
        {
          if i + lane < width {
            data[base + i + lane] := f(i + lane);
          }
        }
        i := i + BLOCK;
      }
      forall q | 0 <= q < capacity && q != r
        ensures Row(q) == old(Row(q))
      {
        RowBefore(q, capacity, stride);
        RowsDisjoint(r, q, stride);
      }
    }
  }
}
