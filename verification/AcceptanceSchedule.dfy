/** Synthetic acceptance rates for speculative decoding.  Rate `i` is the probability that
    draft position `i` is reached and accepted, so that the number of accepted drafts is
    at least `i + 1`.  Floats are modelled as reals. */
module AcceptanceSchedule {
  import opened Options

  datatype Error = NotExactlyOne | WrongLength | OutOfRange | NotDecreasing | LengthOutOfRange

  datatype Result<T> = Ok(value: T) | Err(error: Error)

  /** `[x] * n`: no entries for a negative count. */
  function Times(x: real, n: int): seq<real> {
    seq(if n < 0 then 0 else n, _ => x)
  }

  /** Ones, one fractional rate, zeros, cut to `n` entries. */
  function LengthToRates(length: real, n: nat): seq<real>
    requires 1.0 <= length <= n as real + 1.0
  {
    var numDrafts := length - 1.0;
    var numFull := numDrafts.Floor;
    (Times(1.0, numFull) + [numDrafts - numFull as real] + Times(0.0, n - numFull - 1))[..n]
  }

  predicate InUnit(rates: seq<real>) {
    forall i :: 0 <= i < |rates| ==> 0.0 <= rates[i] <= 1.0
  }

  predicate NonIncreasing(rates: seq<real>) {
    forall i :: 1 <= i < |rates| ==> rates[i] <= rates[i - 1]
  }

  function Resolve(n: nat, rates: Option<seq<real>>, length: Option<real>): Result<seq<real>> {
    if rates.None? == length.None? then Err(NotExactlyOne)
    else if rates.Some? then
      if |rates.value| != n then Err(WrongLength)
      else if !InUnit(rates.value) then Err(OutOfRange)
      else if !NonIncreasing(rates.value) then Err(NotDecreasing)
      else Ok(rates.value)
    else if !(1.0 <= length.value <= n as real + 1.0) then Err(LengthOutOfRange)
    else Ok(LengthToRates(length.value, n))
  }

  /** A schedule the user could have passed as an explicit list. */
  predicate ValidSchedule(n: nat, rates: seq<real>) {
    |rates| == n && InUnit(rates) && NonIncreasing(rates)
  }

  function Sum(rates: seq<real>, j: nat): real
    requires j <= |rates|
  {
    if j == 0 then 0.0 else Sum(rates, j - 1) + rates[j - 1]
  }

  /** The shape of the derived schedule, entry by entry. */
  lemma RatesShape(length: real, n: nat)
    requires 1.0 <= length <= n as real + 1.0
    ensures var full, r := (length - 1.0).Floor, LengthToRates(length, n);
            && 0 <= full <= n && |r| == n && 0.0 <= length - 1.0 - full as real < 1.0
            && forall i :: 0 <= i < n ==>
                 r[i] == if i < full then 1.0 else if i == full then length - 1.0 - full as real else 0.0
  {
  }

  lemma {:induction false} SumOfShape(r: seq<real>, full: nat, frac: real, j: nat)
    requires j <= |r|
    requires forall i :: 0 <= i < |r| ==> r[i] == if i < full then 1.0 else if i == full then frac else 0.0
    ensures Sum(r, j) == if j <= full then j as real else full as real + frac
  {
    if j > 0 {
      SumOfShape(r, full, frac, j - 1);
    }
  }

  /** The derived schedule has one rate per draft, passes every check on user lists, and
      its rates add up to the expected number of accepted drafts; resolving it again
      returns it unchanged. */
  lemma DerivedScheduleIsValid(length: real, n: nat)
    requires 1.0 <= length <= n as real + 1.0
    ensures ValidSchedule(n, LengthToRates(length, n))
    ensures Sum(LengthToRates(length, n), n) == length - 1.0
    ensures Resolve(n, Some(LengthToRates(length, n)), None) == Ok(LengthToRates(length, n))
  {
    RatesShape(length, n);
    var full := (length - 1.0).Floor;
    SumOfShape(LengthToRates(length, n), full, length - 1.0 - full as real, n);
  }

  /** Exactly the valid requests are accepted. */
  lemma ResolveAcceptsExactlyValid(n: nat, rates: Option<seq<real>>, length: Option<real>)
    ensures Resolve(n, rates, length).Ok? <==>
            || (rates.Some? && length.None? && ValidSchedule(n, rates.value))
            || (rates.None? && length.Some? && 1.0 <= length.value <= n as real + 1.0)
    ensures Resolve(n, rates, length).Ok? ==> ValidSchedule(n, Resolve(n, rates, length).value)
  {
    if rates.None? && length.Some? && 1.0 <= length.value <= n as real + 1.0 {
      DerivedScheduleIsValid(length.value, n);
    }
  }

  // The distribution of the accepted count.

  /** Probability that at least `k` drafts are accepted. */
  function Reach(r: seq<real>, k: nat): real {
    if k == 0 then 1.0 else if k <= |r| then r[k - 1] else 0.0
  }

  function Prob(r: seq<real>, k: nat): real {
    Reach(r, k) - Reach(r, k + 1)
  }

  /** Sum of `g(k) * P(k)` for `k <= m`. */
  function Expect(r: seq<real>, g: int -> real, m: nat): real {
    g(m) * Prob(r, m) + if m == 0 then 0.0 else Expect(r, g, m - 1)
  }

  function Count(): int -> real { k => k as real }

  function Square(x: real): real { x * x }

  function SquaredDistance(c: real): int -> real { k => Square(k as real - c) }

  function Mean(r: seq<real>): real { Expect(r, Count(), |r|) }

  function Variance(r: seq<real>): real { Expect(r, SquaredDistance(Mean(r)), |r|) }

  /** Sum of `(g(k) - g(k - 1)) * P(at least k)` for `1 <= k <= m`. */
  function ByParts(r: seq<real>, g: int -> real, m: nat): real {
    if m == 0 then 0.0 else ByParts(r, g, m - 1) + (g(m) - g(m - 1)) * Reach(r, m)
  }

  lemma PartsStep(x: real, y: real, a: real, b: real)
    ensures x * (a - b) - y * a == (x - y) * a - x * b
  {
  }

  lemma {:induction false} ExpectByParts(r: seq<real>, g: int -> real, m: nat)
    ensures Expect(r, g, m) == g(0) + ByParts(r, g, m) - g(m) * Reach(r, m + 1)
  {
    if m == 0 {
      PartsStep(g(0), 0.0, 1.0, Reach(r, 1));
    } else {
      ExpectByParts(r, g, m - 1);
      PartsStep(g(m), g(m - 1), Reach(r, m), Reach(r, m + 1));
    }
  }

  function Weight(i: int): real { 2.0 * i as real + 1.0 }

  /** Sum of `(2 i + 1) * r[i]` for `i < j`: the second moment, summed by parts. */
  function Weighted(r: seq<real>, j: nat): real
    requires j <= |r|
  {
    if j == 0 then 0.0 else Weighted(r, j - 1) + Weight(j - 1) * r[j - 1]
  }

  lemma PartsGap(r: seq<real>, g: int -> real, m: nat, gap: real)
    requires 0 < m <= |r| && g(m) - g(m - 1) == gap
    ensures ByParts(r, g, m) == ByParts(r, g, m - 1) + gap * r[m - 1]
  {
    var step, reach := g(m) - g(m - 1), Reach(r, m);
    assert reach == r[m - 1];
    assert ByParts(r, g, m) == ByParts(r, g, m - 1) + step * reach;
    assert step * reach == gap * reach;
  }

  lemma {:induction false} CountByParts(r: seq<real>, m: nat)
    requires m <= |r|
    ensures ByParts(r, Count(), m) == Sum(r, m)
  {
    if m > 0 {
      CountByParts(r, m - 1);
      var g := Count();
      assert g(m) - g(m - 1) == 1.0;
      PartsGap(r, g, m, 1.0);
      assert ByParts(r, g, m) == ByParts(r, g, m - 1) + r[m - 1];
    }
  }

  lemma SquareGap(c: real, m: int)
    ensures SquaredDistance(c)(m) - SquaredDistance(c)(m - 1) == Weight(m - 1) - 2.0 * c
  {
    var x := m as real - c;
    assert (m - 1) as real - c == x - 1.0;
    assert Square(x - 1.0) == Square(x) - 2.0 * x + 1.0;
  }

  function Cross(c: real, s: real): real { 2.0 * c * s }

  lemma DistributeGap(p: real, w: real, c: real, a: real, s: real)
    ensures p - Cross(c, s) + (w - 2.0 * c) * a == (p + w * a) - Cross(c, s + a)
  {
  }

  lemma {:induction false} DistanceByParts(r: seq<real>, c: real, m: nat)
    requires m <= |r|
    ensures ByParts(r, SquaredDistance(c), m) == Weighted(r, m) - Cross(c, Sum(r, m))
  {
    if m > 0 {
      DistanceByParts(r, c, m - 1);
      SquareGap(c, m);
      PartsGap(r, SquaredDistance(c), m, Weight(m - 1) - 2.0 * c);
      DistributeGap(Weighted(r, m - 1), Weight(m - 1), c, r[m - 1], Sum(r, m - 1));
    }
  }

  lemma ExpectTotal(r: seq<real>, g: int -> real)
    ensures Expect(r, g, |r|) == g(0) + ByParts(r, g, |r|)
  {
    ExpectByParts(r, g, |r|);
    var x, y := g(|r|), Reach(r, |r| + 1);
    assert x * y == 0.0;
  }

  lemma MeanIsSum(r: seq<real>)
    ensures Mean(r) == Sum(r, |r|)
  {
    ExpectTotal(r, Count());
    CountByParts(r, |r|);
  }

  lemma CentreTerms(c: real, w: real)
    ensures SquaredDistance(c)(0) + (w - Cross(c, c)) == w - Square(c)
  {
  }

  lemma DistanceTotal(r: seq<real>, c: real, w: real)
    requires c == Sum(r, |r|) && w == Weighted(r, |r|)
    ensures Expect(r, SquaredDistance(c), |r|) == w - Square(c)
  {
    var g := SquaredDistance(c);
    var parts := ByParts(r, g, |r|);
    ExpectTotal(r, g);
    DistanceByParts(r, c, |r|);
    assert parts == w - Cross(c, c);
    CentreTerms(c, w);
  }

  /** The variance of the accepted count is the weighted sum minus the squared mean. */
  lemma VarianceFormula(r: seq<real>)
    ensures Variance(r) == Weighted(r, |r|) - Square(Sum(r, |r|))
  {
    MeanIsSum(r);
    DistanceTotal(r, Sum(r, |r|), Weighted(r, |r|));
  }

  // The exchange argument.  Moving probability between positions `i` and `full` costs
  // in proportion to their distance, and the derived schedule has nothing to gain.

  function Shift(k: int, d: real): real { 2.0 * k as real * d }

  function Excess(r: seq<real>, s: seq<real>, full: int, j: nat): real
    requires |r| == |s| && j <= |r|
  {
    if j == 0 then 0.0
    else Excess(r, s, full, j - 1) + Shift(j - 1 - full, r[j - 1] - s[j - 1])
  }

  ghost predicate Saturated(r: seq<real>, s: seq<real>, full: int) {
    && |r| == |s|
    && forall i :: 0 <= i < |r| ==> (i < full ==> r[i] <= s[i]) && (i > full ==> s[i] <= r[i])
  }

  lemma ExcessStep(wi: real, wf: real, x: real, y: real, gap: real, sums: real)
    ensures gap - wf * sums + (wi - wf) * (x - y) == gap + (wi * x - wi * y) - wf * (sums + (x - y))
  {
    assert (wi - wf) * (x - y) == wi * x - wi * y - wf * (x - y);
    assert wf * (sums + (x - y)) == wf * sums + wf * (x - y);
  }

  lemma ShiftByWeights(i: int, full: int, d: real)
    ensures Shift(i - full, d) == (Weight(i) - Weight(full)) * d
  {
    assert 2.0 * (i - full) as real == Weight(i) - Weight(full);
  }

  lemma {:induction false} ExcessIsWeightGap(r: seq<real>, s: seq<real>, full: int, j: nat)
    requires |r| == |s| && j <= |r|
    ensures Excess(r, s, full, j) ==
            Weighted(r, j) - Weighted(s, j) - Weight(full) * (Sum(r, j) - Sum(s, j))
  {
    if j > 0 {
      ExcessIsWeightGap(r, s, full, j - 1);
      var gap, sums := Weighted(r, j - 1) - Weighted(s, j - 1), Sum(r, j - 1) - Sum(s, j - 1);
      ShiftByWeights(j - 1, full, r[j - 1] - s[j - 1]);
      ExcessStep(Weight(j - 1), Weight(full), r[j - 1], s[j - 1], gap, sums);
      assert Sum(r, j) - Sum(s, j) == sums + (r[j - 1] - s[j - 1]);
    }
  }

  lemma ShiftNonNegative(k: int, d: real)
    requires (k < 0 ==> d <= 0.0) && (k > 0 ==> d >= 0.0)
    ensures Shift(k, d) >= 0.0
    ensures Shift(k, d) == 0.0 && k != 0 ==> d == 0.0
  {
    var x := 2.0 * k as real;
    if k < 0 {
      assert -x * -d >= 0.0;
      assert -x * -d == x * d;
    }
  }

  lemma {:induction false} ExcessNonNegative(r: seq<real>, s: seq<real>, full: int, j: nat)
    requires Saturated(r, s, full) && j <= |r|
    ensures Excess(r, s, full, j) >= 0.0
    ensures Excess(r, s, full, j) == 0.0 ==> forall i :: 0 <= i < j && i != full ==> r[i] == s[i]
  {
    if j > 0 {
      ExcessNonNegative(r, s, full, j - 1);
      ShiftNonNegative(j - 1 - full, r[j - 1] - s[j - 1]);
    }
  }

  lemma {:induction false} EqualButOne(r: seq<real>, s: seq<real>, full: int, j: nat)
    requires |r| == |s| && j <= |r| && forall i :: 0 <= i < j && i != full ==> r[i] == s[i]
    ensures Sum(r, j) - Sum(s, j) == if 0 <= full < j then r[full] - s[full] else 0.0
  {
    if j > 0 {
      EqualButOne(r, s, full, j - 1);
    }
  }

  lemma WeightGap(r: seq<real>, s: seq<real>, full: int)
    requires Saturated(r, s, full) && Sum(r, |r|) == Sum(s, |s|)
    ensures Weighted(s, |s|) <= Weighted(r, |r|)
    ensures Weighted(s, |s|) == Weighted(r, |r|) ==> forall i :: 0 <= i < |r| && i != full ==> r[i] == s[i]
  {
    ExcessIsWeightGap(r, s, full, |r|);
    ExcessNonNegative(r, s, full, |r|);
  }

  /** Main result: of all valid schedules with the same mean, the derived one has the
      least variance of the accepted count, and it is the only one that does. */
  lemma DerivedScheduleHasLeastVariance(length: real, n: nat, r: seq<real>)
    requires 1.0 <= length <= n as real + 1.0
    requires ValidSchedule(n, r) && Mean(r) == length - 1.0
    ensures Mean(LengthToRates(length, n)) == Mean(r)
    ensures Variance(LengthToRates(length, n)) <= Variance(r)
    ensures Variance(LengthToRates(length, n)) == Variance(r) <==> r == LengthToRates(length, n)
  {
    var s := LengthToRates(length, n);
    var full := (length - 1.0).Floor;
    RatesShape(length, n);
    DerivedScheduleIsValid(length, n);
    MeanIsSum(r);
    MeanIsSum(s);
    VarianceFormula(r);
    VarianceFormula(s);
    WeightGap(r, s, full);
    if Weighted(s, n) == Weighted(r, n) {
      EqualButOne(r, s, full, n);
      assert forall i :: 0 <= i < n ==> r[i] == s[i];
    }
  }

  /** What an accepted request resolves to: a list to itself, a length to rates that sum to
      one less and have the least variance of all valid schedules of that mean. */
  lemma ResolvesTo(n: nat, rates: Option<seq<real>>, length: Option<real>, other: seq<real>)
    requires Resolve(n, rates, length).Ok?
    ensures rates.Some? ==> Resolve(n, rates, length).value == rates.value
    ensures rates.None? ==>
              && length.Some? && ValidSchedule(n, Resolve(n, rates, length).value)
              && Sum(Resolve(n, rates, length).value, n) == length.value - 1.0
              && (ValidSchedule(n, other) && Mean(other) == length.value - 1.0 ==>
                    Variance(Resolve(n, rates, length).value) <= Variance(other))
  {
    if rates.None? {
      DerivedScheduleIsValid(length.value, n);
      if ValidSchedule(n, other) && Mean(other) == length.value - 1.0 {
        DerivedScheduleHasLeastVariance(length.value, n, other);
      }
    }
  }
}
