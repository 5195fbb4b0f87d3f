// The blob base fee: the integer Taylor loop of EIP-4844 (section "Helpers"), run over u128.
module BlobFee {
  import opened Wrappers

  // --- Euclidean division, stated without '/' so that the solver stays linear ---

  lemma MultipleSign(e: int, m: int)
    requires m > 0
    ensures e >= 1 ==> e * m >= m
    ensures e <= 0 ==> e * m <= 0
    ensures e <= -1 ==> e * m <= -m
  {
  }

  lemma QuotientIsUnique(a: nat, m: nat, q: nat)
    requires m > 0 && q * m <= a < q * m + m
    ensures a / m == q
  {
    var e := a / m - q;
    assert a == (a / m) * m + a % m;
    assert e * m == a - q * m - a % m;
    MultipleSign(e, m);
  }

  lemma QuotientMonotone(a: nat, b: nat, m: nat)
    requires m > 0 && a <= b
    ensures a / m <= b / m
  {
    var e := b / m - a / m;
    assert a == (a / m) * m + a % m;
    assert b == (b / m) * m + b % m;
    assert e * m == b - a - b % m + a % m;
    MultipleSign(e, m);
  }

  lemma QuotientBelow(a: nat, m: nat, bound: nat)
    requires m > 0 && a < bound * m
    ensures a / m < bound
  {
    var e := bound - a / m;
    assert a == (a / m) * m + a % m;
    assert e * m == bound * m - a + a % m;
    MultipleSign(e, m);
  }

  lemma ProductMonotone(a: nat, b: nat, x: nat, y: nat)
    requires a <= b && x <= y
    ensures a * x <= b * y
  {
    assert b * y == a * x + a * (y - x) + (b - a) * y;
  }

  lemma ProductStrictlyMonotone(a: nat, x: int, y: int)
    requires a > 0 && x < y
    ensures a * x < a * y
  {
  }

  // --- The loop as a recursive function ---

  // The accumulator that follows `term` in the loop over numerator `x` and denominator `d`.
  function NextTerm(term: nat, x: nat, d: nat, i: nat): nat
    requires d > 0 && i > 0
  {
    (term * x) / (d * i)
  }

  // Once d * i exceeds the numerator, every further accumulator is strictly smaller.
  lemma TermShrinks(term: nat, x: nat, d: nat, i: nat)
    requires d > 0 && i > 0 && term > 0 && x < d * i
    ensures NextTerm(term, x, d, i) < term
  {
    ProductStrictlyMonotone(term, x, d * i);
    QuotientBelow(term * x, d * i, term);
  }

  lemma NextTermMonotone(t: nat, u: nat, x: nat, y: nat, d: nat, i: nat)
    requires d > 0 && i > 0 && t <= u && x <= y
    ensures NextTerm(t, x, d, i) <= NextTerm(u, y, d, i)
  {
    ProductMonotone(t, u, x, y);
    QuotientMonotone(t * x, u * y, d * i);
  }

  // How far the denominator d * i is from exceeding the numerator.
  function Distance(x: nat, d: nat, i: nat): nat
  {
    if d * i <= x then x - d * i + 1 else 0
  }

  lemma DistanceShrinks(x: nat, d: nat, i: nat)
    requires d > 0
    ensures Distance(x, d, i + 1) < Distance(x, d, i) || Distance(x, d, i + 1) == Distance(x, d, i) == 0
  {
    assert d * (i + 1) == d * i + d;
  }

  // The sum of an accumulator and of all the accumulators after it. The loop terminates for every
  // numerator: first the denominator catches up with the numerator, then the accumulators shrink.
  function SumTerms(term: nat, x: nat, d: nat, i: nat): nat
    requires d > 0 && i > 0
    decreases Distance(x, d, i), term
  {
    if term == 0 then 0
    else
      assert Distance(x, d, i + 1) < Distance(x, d, i) || NextTerm(term, x, d, i) < term by {
        DistanceShrinks(x, d, i);
        if Distance(x, d, i + 1) >= Distance(x, d, i) { TermShrinks(term, x, d, i); }
      }
      assert Distance(x, d, i + 1) <= Distance(x, d, i) by { DistanceShrinks(x, d, i); }
      term + SumTerms(NextTerm(term, x, d, i), x, d, i + 1)
  }

  // The accumulators are scaled by the denominator, so their sum is divided by it at the end.
  function Unscaled(sum: nat, d: nat): nat
    requires d > 0
  {
    sum / d
  }

  function FakeExponential(factor: nat, x: nat, d: nat): nat
    requires d > 0
  {
    Unscaled(SumTerms(factor * d, x, d, 1), d)
  }

  // The values computed by one iteration stay within u128.
  predicate StepFitsU128(output: nat, term: nat, x: nat, d: nat, i: nat) {
    output + term <= U128_MAX && term * x <= U128_MAX && d * i <= U128_MAX
  }

  // Every value the remaining iterations compute stays within u128.
  predicate FitsU128(output: nat, term: nat, x: nat, d: nat, i: nat)
    requires d > 0 && i > 0
    decreases Distance(x, d, i), term
  {
    term == 0 ||
    (assert Distance(x, d, i + 1) < Distance(x, d, i) || NextTerm(term, x, d, i) < term by {
       DistanceShrinks(x, d, i);
       if Distance(x, d, i + 1) >= Distance(x, d, i) { TermShrinks(term, x, d, i); }
     }
     assert Distance(x, d, i + 1) <= Distance(x, d, i) by { DistanceShrinks(x, d, i); }
     && StepFitsU128(output, term, x, d, i)
     && FitsU128(output + term, NextTerm(term, x, d, i), x, d, i + 1))
  }

  // One iteration, seen from the sum and from the overflow condition.
  lemma Iteration(output: nat, term: nat, x: nat, d: nat, i: nat)
    requires d > 0 && i > 0 && term > 0
    ensures Distance(x, d, i + 1) < Distance(x, d, i) ||
            (Distance(x, d, i + 1) == Distance(x, d, i) && NextTerm(term, x, d, i) < term)
    ensures SumTerms(term, x, d, i) == term + SumTerms(NextTerm(term, x, d, i), x, d, i + 1)
    ensures FitsU128(output, term, x, d, i) <==>
            StepFitsU128(output, term, x, d, i) &&
            FitsU128(output + term, NextTerm(term, x, d, i), x, d, i + 1)
  {
    DistanceShrinks(x, d, i);
    if Distance(x, d, i + 1) >= Distance(x, d, i) { TermShrinks(term, x, d, i); }
  }

  lemma LoopEnd(output: nat, x: nat, d: nat, i: nat)
    requires d > 0 && i > 0
    ensures SumTerms(0, x, d, i) == 0 && FitsU128(output, 0, x, d, i)
  {
  }

  // The loop itself, from its first accumulator on. `fits` is false when some intermediate value
  // leaves u128.
  method SumLoop(first: nat, x: nat, d: nat) returns (output: nat, fits: bool)
    requires d > 0
    ensures output == SumTerms(first, x, d, 1)
    ensures fits <==> FitsU128(0, first, x, d, 1)
  {
    var i, term := 1, first;
    output, fits := 0, true;
    while term > 0
      invariant i > 0
      invariant output + SumTerms(term, x, d, i) == SumTerms(first, x, d, 1)
      invariant fits && FitsU128(output, term, x, d, i) <==> FitsU128(0, first, x, d, 1)
      decreases Distance(x, d, i), term
    {
      Iteration(output, term, x, d, i);
      fits := fits && StepFitsU128(output, term, x, d, i);
      output, term, i := output + term, NextTerm(term, x, d, i), i + 1;
    }
    LoopEnd(output, x, d, i);
  }

  method ComputeFakeExponential(factor: nat, x: nat, d: nat) returns (fee: nat, fits: bool)
    requires d > 0
    ensures fee == FakeExponential(factor, x, d)
    ensures fits <==> factor * d <= U128_MAX && FitsU128(0, factor * d, x, d, 1)
  {
    var output, inRange := SumLoop(factor * d, x, d);
    fee := Unscaled(output, d);
    fits := factor * d <= U128_MAX && inRange;
  }

  // --- The loop, iteration by iteration ---

  // The accumulator after j iterations of the loop, and the sum of all accumulators before it.
  function TermAt(first: nat, x: nat, d: nat, j: nat): nat
    requires d > 0
  {
    if j == 0 then first else NextTerm(TermAt(first, x, d, j - 1), x, d, j)
  }

  function SumTo(first: nat, x: nat, d: nat, j: nat): nat
    requires d > 0
  {
    if j == 0 then 0 else SumTo(first, x, d, j - 1) + TermAt(first, x, d, j - 1)
  }

  // The loop does not come to iteration j, or all that this computes stays within u128.
  predicate FitsIn(first: nat, x: nat, d: nat, j: nat)
    requires d > 0
  {
    TermAt(first, x, d, j) == 0 ||
    (&& SumTo(first, x, d, j + 1) <= U128_MAX
     && TermAt(first, x, d, j) * x <= U128_MAX
     && d * (j + 1) <= U128_MAX)
  }

  // Once an accumulator is zero, so are all that follow.
  lemma {:induction false} ZeroStays(first: nat, x: nat, d: nat, j: nat, k: nat)
    requires d > 0 && j <= k && TermAt(first, x, d, j) == 0
    ensures TermAt(first, x, d, k) == 0
  {
    if j < k {
      ZeroStays(first, x, d, j, k - 1);
      NextOfZero(x, d, k);
    }
  }

  lemma NextOfZero(x: nat, d: nat, i: nat)
    requires d > 0 && i > 0
    ensures NextTerm(0, x, d, i) == 0
  {
    QuotientIsUnique(0 * x, d * i, 0);
  }

  lemma {:induction false} LoopFrom(first: nat, x: nat, d: nat, i: nat)
    requires d > 0 && i > 0
    ensures FitsU128(SumTo(first, x, d, i - 1), TermAt(first, x, d, i - 1), x, d, i) <==>
            forall j | j >= i - 1 :: FitsIn(first, x, d, j)
    ensures forall j | j >= i - 1 && TermAt(first, x, d, j) == 0 ::
              SumTo(first, x, d, i - 1) + SumTerms(TermAt(first, x, d, i - 1), x, d, i) == SumTo(first, x, d, j)
    decreases Distance(x, d, i), TermAt(first, x, d, i - 1)
  {
    var output, term := SumTo(first, x, d, i - 1), TermAt(first, x, d, i - 1);
    if term == 0 {
      LoopEnd(output, x, d, i);
      forall j | j >= i - 1 ensures FitsIn(first, x, d, j) && SumTo(first, x, d, j) == output {
        ZeroStays(first, x, d, i - 1, j);
        SumStays(first, x, d, i - 1, j);
      }
    } else {
      Iteration(output, term, x, d, i);
      LoopFrom(first, x, d, i + 1);
      assert FitsIn(first, x, d, i - 1) <==> StepFitsU128(output, term, x, d, i);
    }
  }

  lemma {:induction false} SumStays(first: nat, x: nat, d: nat, j: nat, k: nat)
    requires d > 0 && j <= k && TermAt(first, x, d, j) == 0
    ensures SumTo(first, x, d, k) == SumTo(first, x, d, j)
  {
    if j < k {
      SumStays(first, x, d, j, k - 1);
      ZeroStays(first, x, d, j, k - 1);
    }
  }

  // The loop leaves u128 exactly when one of its iterations does, and what it computes is the sum
  // of its accumulators up to the first that is zero.
  lemma LoopExactly(first: nat, x: nat, d: nat)
    requires d > 0
    ensures FitsU128(0, first, x, d, 1) <==> forall j :: FitsIn(first, x, d, j)
    ensures forall j | TermAt(first, x, d, j) == 0 :: SumTerms(first, x, d, 1) == SumTo(first, x, d, j)
  {
    LoopFrom(first, x, d, 1);
  }

  // --- Monotonicity ---

  lemma {:induction false} SumTermsMonotone(t: nat, u: nat, x: nat, y: nat, d: nat, i: nat)
    requires d > 0 && i > 0 && t <= u && x <= y
    ensures SumTerms(t, x, d, i) <= SumTerms(u, y, d, i)
    decreases Distance(y, d, i), u
  {
    if t > 0 {
      Iteration(0, u, y, d, i);
      NextTermMonotone(t, u, x, y, d, i);
      SumTermsMonotone(NextTerm(t, x, d, i), NextTerm(u, y, d, i), x, y, d, i + 1);
    }
  }

  lemma FakeExponentialMonotone(factor: nat, x: nat, y: nat, d: nat)
    requires d > 0 && x <= y
    ensures FakeExponential(factor, x, d) <= FakeExponential(factor, y, d)
  {
    SumTermsMonotone(factor * d, factor * d, x, y, d, 1);
    QuotientMonotone(SumTerms(factor * d, x, d, 1), SumTerms(factor * d, y, d, 1), d);
  }

  lemma SumTermsAtZero(term: nat, d: nat)
    requires d > 0
    ensures SumTerms(term, 0, d, 1) == term
  {
    if term > 0 {
      QuotientIsUnique(term * 0, d * 1, 0);
    }
  }

  // The price never falls below the factor: the first accumulator alone contributes it.
  lemma FakeExponentialAtLeastFactor(factor: nat, x: nat, d: nat)
    requires d > 0
    ensures FakeExponential(factor, x, d) >= factor
    ensures FakeExponential(factor, 0, d) == factor
  {
    QuotientIsUnique(factor * d, d, factor);
    QuotientMonotone(factor * d, SumTerms(factor * d, x, d, 1), d);
    SumTermsAtZero(factor * d, d);
  }

  // --- No overflow ---

  // A bound on the whole sum bounds every intermediate value: each accumulator is one summand,
  // and since each is at least one, there are no more iterations than the sum is large.
  lemma {:induction false} SmallSumFits(output: nat, term: nat, x: nat, d: nat, i: nat)
    requires d > 0 && i > 0
    requires output + SumTerms(term, x, d, i) <= U128_MAX
    requires SumTerms(term, x, d, i) * x <= U128_MAX
    requires d * (i + SumTerms(term, x, d, i)) <= U128_MAX
    ensures FitsU128(output, term, x, d, i)
    decreases Distance(x, d, i), term
  {
    if term > 0 {
      Iteration(output, term, x, d, i);
      var next := NextTerm(term, x, d, i);
      var sum, rest := SumTerms(term, x, d, i), SumTerms(next, x, d, i + 1);
      assert sum == term + rest;
      ProductMonotone(term, sum, x, x);
      ProductMonotone(rest, sum, x, x);
      ProductMonotone(d, d, i, i + sum);
      ProductMonotone(d, d, i + 1 + rest, i + sum);
      SmallSumFits(output + term, next, x, d, i + 1);
    }
  }
}
