/** Kernel launches: the programs of a grid run once each, in an order the device picks. */
module Launch {

  predicate Runs(order: seq<int>, b: int) { b in order }

  /** A schedule of the programs `0..n`: each exactly once. */
  predicate IsOrder(order: seq<int>, n: int) {
    && (forall b :: 0 <= b < n ==> Runs(order, b))
    && (forall k :: 0 <= k < |order| ==> 0 <= order[k] < n)
    && forall j, k :: 0 <= j < k < |order| ==> order[j] != order[k]
  }

  lemma RunsOneMore(order: seq<int>, k: int)
    requires 0 <= k < |order|
    ensures forall b :: Runs(order[..k + 1], b) <==> Runs(order[..k], b) || b == order[k]
    ensures (forall i, j :: 0 <= i < j < |order| ==> order[i] != order[j]) ==> !Runs(order[..k], order[k])
  {
    assert order[..k + 1] == order[..k] + [order[k]];
  }
}
