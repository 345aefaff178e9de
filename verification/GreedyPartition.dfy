/** In-order partitions of `0..n` into consecutive groups, given by their cut points,
    and the optimality of greedy grouping for any hereditary admissibility test. */
module GreedyPartition {

  predicate Cuts(cuts: seq<int>, n: int) {
    && |cuts| > 0
    && cuts[0] == 0
    && cuts[|cuts| - 1] == n
    && forall i, j :: 0 <= i < j < |cuts| ==> cuts[i] < cuts[j]
  }

  /** Every group `[cuts[i], cuts[i + 1])` is admissible. */
  predicate Partition(cuts: seq<int>, n: int, admissible: (int, int) -> bool) {
    && Cuts(cuts, n)
    && forall i :: 0 <= i < |cuts| - 1 ==> admissible(cuts[i], cuts[i + 1])
  }

  /** No group could have taken in one more element. */
  predicate Greedy(cuts: seq<int>, n: int, admissible: (int, int) -> bool) {
    forall i :: 0 <= i < |cuts| - 1 ==> cuts[i + 1] == n || !admissible(cuts[i], cuts[i + 1] + 1)
  }

  lemma GreedyGroup(cuts: seq<int>, n: int, admissible: (int, int) -> bool, k: int)
    requires Partition(cuts, n, admissible) && Greedy(cuts, n, admissible) && 0 <= k < |cuts| - 1
    ensures admissible(cuts[k], cuts[k + 1])
    ensures k < |cuts| - 2 ==> cuts[k + 1] < n && !admissible(cuts[k], cuts[k + 1] + 1)
  {
    assert k < |cuts| - 2 ==> cuts[k + 1] < cuts[|cuts| - 1];
  }

  /** Every nonempty part of an admissible group is admissible. */
  ghost predicate Hereditary(n: int, admissible: (int, int) -> bool) {
    forall s, e, s', e' {:trigger admissible(s, e), admissible(s', e')} ::
      0 <= s <= s' < e' <= e <= n && admissible(s, e) ==> admissible(s', e')
  }

  lemma {:induction false} GreedyStaysAhead(greedy: seq<int>, other: seq<int>, n: int,
                                            admissible: (int, int) -> bool, k: nat)
    requires Partition(greedy, n, admissible) && Greedy(greedy, n, admissible)
    requires Partition(other, n, admissible) && Hereditary(n, admissible)
    requires k < |greedy| && k < |other|
    ensures other[k] <= greedy[k]
  {
    if k > 0 {
      GreedyStaysAhead(greedy, other, n, admissible, k - 1);
      assert admissible(other[k - 1], other[k - 1 + 1]);
      assert greedy[k - 1 + 1] == n || !admissible(greedy[k - 1], greedy[k - 1 + 1] + 1);
      assert greedy[k - 1] < greedy[k] && other[k] <= n;
    }
  }

  /** Greedy grouping uses the fewest groups of all admissible in-order partitions. */
  lemma GreedyIsOptimal(greedy: seq<int>, other: seq<int>, n: int, admissible: (int, int) -> bool)
    requires Partition(greedy, n, admissible) && Greedy(greedy, n, admissible)
    requires Partition(other, n, admissible) && Hereditary(n, admissible)
    ensures |greedy| <= |other|
  {
    var last := if |other| <= |greedy| then |other| - 1 else |greedy| - 1;
    GreedyStaysAhead(greedy, other, n, admissible, last);
  }

  /** Closing one more maximal group extends a greedy partition. */
  lemma Extend(cuts: seq<int>, end: int, next: int, n: int, admissible: (int, int) -> bool)
    requires Partition(cuts, end, admissible) && Greedy(cuts, n, admissible)
    requires end < next <= n && admissible(end, next) && (next == n || !admissible(end, next + 1))
    ensures Partition(cuts + [next], next, admissible) && Greedy(cuts + [next], n, admissible)
  {
    var grown := cuts + [next];
    assert forall i :: 0 <= i < |cuts| ==> grown[i] == cuts[i];
    forall i | 0 <= i < |grown| - 1
      ensures admissible(grown[i], grown[i + 1])
      ensures grown[i + 1] == n || !admissible(grown[i], grown[i + 1] + 1)
    {
      assert i < |cuts| - 1 ==> grown[i + 1] == cuts[i + 1];
    }
  }
}
