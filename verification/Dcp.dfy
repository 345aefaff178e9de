/** Context-parallel (DCP) sharding of KV positions: runs of `interleave` consecutive
    positions are dealt to the ranks in turn.  `LocalLen` is the closed formula the
    row-bound kernel inlines; the lemmas tie it to the set of keys a rank owns. */
module Dcp {
  import opened Arith

  predicate ValidShard(world: int, rank: int, interleave: int) {
    0 <= rank < world && 0 < interleave
  }

  /** The length formula, with the source's floor divisions. */
  function LocalLen(len: int, world: int, rank: int, interleave: int): int
    requires ValidShard(world, rank, interleave)
  {
    var base := (len / interleave / world) * interleave;
    var remainder := len - base * world;
    base + Clamp(remainder - rank * interleave, 0, interleave)
  }

  predicate Owns(p: int, world: int, rank: int, interleave: int)
    requires ValidShard(world, rank, interleave)
  {
    (p / interleave) % world == rank
  }

  /** The keys below `n` that live on this rank. */
  ghost function OwnedKeys(n: int, world: int, rank: int, interleave: int): set<int>
    requires ValidShard(world, rank, interleave)
  {
    set p | 0 <= p < n && Owns(p, world, rank, interleave)
  }

  // len = (q * world + c) * interleave + b: full rounds, then the rank `c` whose turn
  // it is, then the part of its run already dealt.
  lemma LocalLenNormalForm(len: int, world: int, rank: int, interleave: int)
    requires ValidShard(world, rank, interleave)
    ensures var q, c, b := len / interleave / world, (len / interleave) % world, len % interleave;
            LocalLen(len, world, rank, interleave) ==
            q * interleave + (if c < rank then 0 else if c == rank then b else interleave)
  {
    var a, b := len / interleave, len % interleave;
    var q, c := a / world, a % world;
    RemainderForm(len, a, b, q, c, world, interleave);
    assert c * interleave + b - rank * interleave == (c - rank) * interleave + b;
    MulAtLeast(c - rank, interleave);
  }

  lemma RemainderForm(len: int, a: int, b: int, q: int, c: int, world: int, k: int)
    requires len == a * k + b && a == q * world + c
    ensures len - (q * k) * world == c * k + b
  {
    calc {
      a * k;
      (q * world + c) * k;
      (q * world) * k + c * k;
      { assert (q * world) * k == (q * k) * world; }
      (q * k) * world + c * k;
    }
  }

  /** One more key makes the local length grow by one on its owner and nowhere else. */
  lemma LocalLenStep(len: int, world: int, rank: int, interleave: int)
    requires ValidShard(world, rank, interleave)
    ensures LocalLen(len + 1, world, rank, interleave) ==
            LocalLen(len, world, rank, interleave) + (if Owns(len, world, rank, interleave) then 1 else 0)
  {
    LocalLenNormalForm(len, world, rank, interleave);
    LocalLenNormalForm(len + 1, world, rank, interleave);
    DivStep(len, interleave);
    DivStep(len / interleave, world);
    var q := len / interleave / world;
    assert (q + 1) * interleave == q * interleave + interleave;
  }

  lemma LocalLenZero(world: int, rank: int, interleave: int)
    requires ValidShard(world, rank, interleave)
    ensures LocalLen(0, world, rank, interleave) == 0
  {
    LocalLenNormalForm(0, world, rank, interleave);
    assert 0 / interleave == 0 && 0 % interleave == 0;
    assert 0 / world == 0 && 0 % world == 0;
  }

  lemma OwnedKeysStep(n: nat, world: int, rank: int, interleave: int)
    requires ValidShard(world, rank, interleave)
    ensures |OwnedKeys(n + 1, world, rank, interleave)| ==
            |OwnedKeys(n, world, rank, interleave)| + (if Owns(n, world, rank, interleave) then 1 else 0)
  {
    var before := OwnedKeys(n, world, rank, interleave);
    if Owns(n, world, rank, interleave) {
      assert OwnedKeys(n + 1, world, rank, interleave) == before + {n};
    } else {
      assert OwnedKeys(n + 1, world, rank, interleave) == before;
    }
  }

  /** The formula counts exactly the keys the rank owns. */
  lemma {:induction false} LocalLenCountsOwnedKeys(len: nat, world: int, rank: int, interleave: int)
    requires ValidShard(world, rank, interleave)
    ensures LocalLen(len, world, rank, interleave) == |OwnedKeys(len, world, rank, interleave)|
  {
    if len == 0 {
      LocalLenZero(world, rank, interleave);
      assert OwnedKeys(0, world, rank, interleave) == {};
    } else {
      LocalLenCountsOwnedKeys(len - 1, world, rank, interleave);
      LocalLenStep(len - 1, world, rank, interleave);
      OwnedKeysStep(len - 1, world, rank, interleave);
    }
  }

  /** Monotone, and never growing faster than the global length. */
  lemma {:induction false} LocalLenMonotone(a: int, b: int, world: int, rank: int, interleave: int)
    requires ValidShard(world, rank, interleave) && a <= b
    ensures 0 <= LocalLen(b, world, rank, interleave) - LocalLen(a, world, rank, interleave) <= b - a
    decreases b - a
  {
    if a < b {
      LocalLenMonotone(a, b - 1, world, rank, interleave);
      LocalLenStep(b - 1, world, rank, interleave);
    }
  }

  /** The lengths of the first `ranks` ranks together. */
  ghost function RankSum(len: int, world: int, ranks: int, interleave: int): int
    requires 0 <= ranks <= world && 0 < interleave
  {
    if ranks == 0 then 0
    else RankSum(len, world, ranks - 1, interleave) + LocalLen(len, world, ranks - 1, interleave)
  }

  lemma {:induction false} RankSumStep(len: int, world: int, ranks: int, interleave: int)
    requires 0 <= ranks <= world && 0 < world && 0 < interleave
    ensures RankSum(len + 1, world, ranks, interleave) ==
            RankSum(len, world, ranks, interleave) + (if (len / interleave) % world < ranks then 1 else 0)
  {
    if ranks > 0 {
      RankSumStep(len, world, ranks - 1, interleave);
      LocalLenStep(len, world, ranks - 1, interleave);
    }
  }

  lemma {:induction false} RankSumOfNothing(world: int, ranks: int, interleave: int)
    requires 0 <= ranks <= world && 0 < interleave
    ensures RankSum(0, world, ranks, interleave) == 0
  {
    if ranks > 0 {
      RankSumOfNothing(world, ranks - 1, interleave);
      LocalLenZero(world, ranks - 1, interleave);
    }
  }

  /** Conservation: the ranks' local lengths add up to the global length. */
  lemma {:induction false} RanksShareEveryKey(len: nat, world: int, interleave: int)
    requires 0 < world && 0 < interleave
    ensures RankSum(len, world, world, interleave) == len
  {
    if len == 0 {
      RankSumOfNothing(world, world, interleave);
    } else {
      RanksShareEveryKey(len - 1, world, interleave);
      RankSumStep(len - 1, world, world, interleave);
    }
  }

  /** The short form for interleave 1. */
  lemma LocalLenInterleaveOne(len: int, world: int, rank: int)
    requires ValidShard(world, rank, 1)
    ensures LocalLen(len, world, rank, 1) == (len + world - 1 - rank) / world
  {
    LocalLenNormalForm(len, world, rank, 1);
    var q, c := len / world, len % world;
    assert len / 1 == len && len % 1 == 0;
    if c <= rank {
      DivModUnique(len + world - 1 - rank, world, q, c + world - 1 - rank);
    } else {
      assert len + world - 1 - rank == (q + 1) * world + (c - 1 - rank);
      DivModUnique(len + world - 1 - rank, world, q + 1, c - 1 - rank);
    }
  }

  /** A single rank owns everything. */
  lemma LocalLenSingleRank(len: int, interleave: int)
    requires 0 < interleave
    ensures LocalLen(len, 1, 0, interleave) == len
  {
    LocalLenNormalForm(len, 1, 0, interleave);
  }

  /** The turns of the ranks after this one, in keys. */
  function Slack(world: int, rank: int, interleave: int): int {
    (world - 1 - rank) * interleave
  }

  lemma SlackQuotients(later: int, interleave: int, n: int)
    requires interleave > 0 && n == -(later * interleave)
    ensures n / interleave == -later && n % interleave == 0
    ensures (n - 1) / interleave == -later - 1
  {
    assert n == -later * interleave && n - 1 == (-later - 1) * interleave + (interleave - 1);
    DivModUnique(n, interleave, -later, 0);
    DivModUnique(n - 1, interleave, -later - 1, interleave - 1);
  }

  lemma LocalLenAtSlack(world: int, rank: int, interleave: int)
    requires ValidShard(world, rank, interleave)
    ensures LocalLen(-Slack(world, rank, interleave), world, rank, interleave) == 0
    ensures Owns(-Slack(world, rank, interleave) - 1, world, rank, interleave)
  {
    var later, n := world - 1 - rank, -Slack(world, rank, interleave);
    SlackQuotients(later, interleave, n);
    DivModUnique(-later - 1, world, -1, rank);
    LocalLenNormalForm(n, world, rank, interleave);
    if later == 0 {
      DivModUnique(-later, world, 0, 0);
    } else {
      DivModUnique(-later, world, -1, rank + 1);
    }
  }

  /** When the formula stays non-negative below zero: as long as only ranks after this one
      would have to give keys back. */
  lemma LocalLenSign(len: int, world: int, rank: int, interleave: int)
    requires ValidShard(world, rank, interleave)
    ensures LocalLen(len, world, rank, interleave) >= 0 <==> len >= -Slack(world, rank, interleave)
  {
    var edge := -Slack(world, rank, interleave);
    LocalLenAtSlack(world, rank, interleave);
    if len >= edge {
      LocalLenMonotone(edge, len, world, rank, interleave);
    } else {
      LocalLenStep(edge - 1, world, rank, interleave);
      LocalLenMonotone(len, edge - 1, world, rank, interleave);
    }
  }

  /** Localizing each token's global bound after expansion gives the token exactly the
      keys of its causal prefix that this rank owns.  Expanding a request-level local
      length instead never gives more, and gives as many exactly when the rank owns
      every position from the token's bound up to the end of the request. */
  lemma {:induction false} LocalizeAfterExpansion(seqLen: nat, bound: nat, world: int, rank: int, interleave: int)
    requires ValidShard(world, rank, interleave) && bound <= seqLen
    ensures LocalLen(bound, world, rank, interleave) == |OwnedKeys(bound, world, rank, interleave)|
    ensures LocalLen(seqLen, world, rank, interleave) - (seqLen - bound) <= LocalLen(bound, world, rank, interleave)
    ensures LocalLen(seqLen, world, rank, interleave) - (seqLen - bound) == LocalLen(bound, world, rank, interleave)
            <==> forall p :: bound <= p < seqLen ==> Owns(p, world, rank, interleave)
    decreases seqLen - bound
  {
    LocalLenCountsOwnedKeys(bound, world, rank, interleave);
    if bound < seqLen {
      LocalizeAfterExpansion(seqLen - 1, bound, world, rank, interleave);
      LocalLenStep(seqLen - 1, world, rank, interleave);
      assert Owns(seqLen - 1, world, rank, interleave) || !Owns(seqLen - 1, world, rank, interleave);
    }
  }

  /** The worked example of the builder's comment: bounds 8, 9, 10 on rank 1 of 2. */
  lemma ExpandingALocalLengthIsTooShort()
    ensures [LocalLen(8, 2, 1, 1), LocalLen(9, 2, 1, 1), LocalLen(10, 2, 1, 1)] == [4, 4, 5]
    ensures LocalLen(10, 2, 1, 1) - 2 == 3
  {
  }
}
